/**
 * The `chemcurry` step contract: `step(mols) -> (num_notes, num_issues)`.
 *
 * A `Filter` carries its per-record predicate, an `Update` its per-record
 * transform (which answers a replacement structure, or `None` for failure).
 * `Visit` says what a step does to one record and `Apply` what it does to a
 * list, left to right; `ApplyStep` runs it over `Molecule` objects.
 */
module ChemcurryStep {
  import opened Wrappers
  import opened Structure
  import opened ChemcurryMolecule

  datatype Step =
    | FilterStep(name: string, issue: string, passes: Mol -> bool)
    | UpdateStep(name: string, issue: string, note: string, update: Mol -> Option<Mol>)

  /** The effect of a step on one record and what it adds to the counts. */
  datatype Visit = Visit(state: MoleculeState, noted: bool, flagged: bool, raised: Option<string>)

  function VisitRecord(step: Step, s: MoleculeState): Visit {
    if s.failed then Visit(s, false, false, None)
    else
      match step
      case FilterStep(_, issue, passes) =>
        if passes(s.mol) then Visit(s, false, false, None)
        else Visit(Flag(s, issue), false, true, None)
      case UpdateStep(_, issue, note, update) =>
        match update(s.mol)
        case None => Visit(Flag(s, issue), false, true, None)
        case Some(m) => UpdateVisit(s, m, note)
  }

  /** An accepted or refused replacement of a passing record. */
  function UpdateVisit(s: MoleculeState, m: Mol, note: string): Visit {
    match Update(s, Some(m), note)
    case InvalidReplacement(kind) => Visit(s, false, false, Some(InvalidReplacementMessage(kind)))
    case Updated(t, changed) => Visit(t, changed, false, None)
  }

  /** The records after a step, its two counts, and the error it raised if any. */
  datatype StepRun = StepRun(states: seq<MoleculeState>, numNotes: nat, numIssues: nat, raised: Option<string>)

  /** A step over a list: records are visited in order; an error stops the visit. */
  function Apply(step: Step, ss: seq<MoleculeState>): (r: StepRun)
    ensures |r.states| == |ss|
    decreases |ss|
  {
    if |ss| == 0 then StepRun([], 0, 0, None)
    else
      var prev := Apply(step, ss[..|ss| - 1]);
      var last := ss[|ss| - 1];
      if prev.raised.Some? then StepRun(prev.states + [last], prev.numNotes, prev.numIssues, prev.raised)
      else
        var v := VisitRecord(step, last);
        StepRun(prev.states + [v.state],
                prev.numNotes + (if v.noted then 1 else 0),
                prev.numIssues + (if v.flagged then 1 else 0),
                v.raised)
  }

  /** `sum([mol.failed_curation for mol in mols])` */
  function CountFailed(ss: seq<MoleculeState>): (n: nat)
    ensures n <= |ss|
    decreases |ss|
  {
    if |ss| == 0 then 0 else CountFailed(ss[..|ss| - 1]) + (if ss[|ss| - 1].failed then 1 else 0)
  }

  /** The number of records that have not failed. */
  function CountPassing(ss: seq<MoleculeState>): (n: nat)
    ensures n + CountFailed(ss) == |ss|
    decreases |ss|
  {
    if |ss| == 0 then 0 else CountPassing(ss[..|ss| - 1]) + (if ss[|ss| - 1].failed then 0 else 1)
  }

  /** The number of positions that pass in `before` and have failed in `after`. */
  function NewlyFailed(before: seq<MoleculeState>, after: seq<MoleculeState>): nat
    requires |before| == |after|
    decreases |before|
  {
    if |before| == 0 then 0
    else
      var n := |before| - 1;
      NewlyFailed(before[..n], after[..n]) + (if !before[n].failed && after[n].failed then 1 else 0)
  }

  /** The total number of notes appended between `before` and `after`. */
  function NotesAdded(before: seq<MoleculeState>, after: seq<MoleculeState>): int
    requires |before| == |after|
    decreases |before|
  {
    if |before| == 0 then 0
    else
      var n := |before| - 1;
      NotesAdded(before[..n], after[..n]) + (|after[n].notes| - |before[n].notes|)
  }

  ghost predicate AllInv(ss: seq<MoleculeState>) {
    forall i :: 0 <= i < |ss| ==> Inv(ss[i])
  }

  /** One record: a failed one is untouched, a flag is a pass-to-fail move, a note is one appended note. */
  lemma VisitContract(step: Step, s: MoleculeState)
    requires Inv(s)
    ensures var v := VisitRecord(step, s);
      && Inv(v.state)
      && v.state.id == s.id
      && (s.failed ==> v.state == s && !v.noted && !v.flagged && v.raised.None?)
      && (v.flagged <==> (!s.failed && v.state.failed))
      && (s.failed ==> v.state.failed)
      && |v.state.notes| == |s.notes| + (if v.noted then 1 else 0)
      && (step.FilterStep? ==> !v.noted && v.raised.None?)
      && (v.raised.Some? ==> v.state == s)
  {
    if !s.failed && step.UpdateStep? {
      match step.update(s.mol)
      case None =>
      case Some(m) =>
        if !IsEmpty(m) {
          UpdateChangeDetection(s, m, step.note);
        }
    }
  }

  /** The last record of a list after a step: untouched after a raise, visited otherwise. */
  lemma ApplyLast(step: Step, ss: seq<MoleculeState>)
    requires |ss| > 0
    ensures var n := |ss| - 1;
      var prev := Apply(step, ss[..n]);
      && Apply(step, ss).states == prev.states + [if prev.raised.Some? then ss[n] else VisitRecord(step, ss[n]).state]
      && (prev.raised.Some? ==> Apply(step, ss) == StepRun(prev.states + [ss[n]], prev.numNotes, prev.numIssues, prev.raised))
  {
  }

  /** The step contract, first part: the invariant of every record holds afterwards. */
  lemma {:induction false} ApplyPreserves(step: Step, ss: seq<MoleculeState>)
    requires AllInv(ss)
    ensures AllInv(Apply(step, ss).states)
    decreases |ss|
  {
    if |ss| > 0 {
      var n := |ss| - 1;
      var prev := Apply(step, ss[..n]);
      ApplyPreserves(step, ss[..n]);
      ApplyLast(step, ss);
      if prev.raised.None? {
        VisitContract(step, ss[n]);
      }
    }
  }

  /** Position by position, `after` keeps the ids of `before` and every record of it that had failed. */
  ghost predicate Untouched(before: seq<MoleculeState>, after: seq<MoleculeState>) {
    && |before| == |after|
    && forall i :: 0 <= i < |before| ==> after[i].id == before[i].id && (before[i].failed ==> after[i] == before[i])
  }

  lemma UntouchedTrans(a: seq<MoleculeState>, b: seq<MoleculeState>, c: seq<MoleculeState>)
    requires Untouched(a, b) && Untouched(b, c)
    ensures Untouched(a, c)
  {
    forall i | 0 <= i < |a|
      ensures c[i].id == a[i].id && (a[i].failed ==> c[i] == a[i])
    {
      assert b[i].id == a[i].id && c[i].id == b[i].id;
    }
  }

  /** Extending both lists by one record that keeps its id, and is untouched if it had failed. */
  lemma UntouchedSnoc(a: seq<MoleculeState>, b: seq<MoleculeState>, x: MoleculeState, y: MoleculeState)
    requires Untouched(a, b) && y.id == x.id && (x.failed ==> y == x)
    ensures Untouched(a + [x], b + [y])
  {
  }

  /** The step contract, second part: records keep their ids and already-failed records are left untouched. */
  lemma {:induction false} ApplyKeepsFailed(step: Step, ss: seq<MoleculeState>)
    ensures Untouched(ss, Apply(step, ss).states)
    decreases |ss|
  {
    if |ss| > 0 {
      var n := |ss| - 1;
      var prev := Apply(step, ss[..n]);
      ApplyKeepsFailed(step, ss[..n]);
      ApplyLast(step, ss);
      var y := Apply(step, ss).states[n];
      UntouchedSnoc(ss[..n], prev.states, ss[n], y);
      assert ss[..n] + [ss[n]] == ss;
    }
  }

  /** The issue count is the number of records moved from passing to failed. */
  lemma {:induction false} ApplyCountsIssues(step: Step, ss: seq<MoleculeState>)
    requires AllInv(ss)
    ensures Apply(step, ss).numIssues == NewlyFailed(ss, Apply(step, ss).states)
    decreases |ss|
  {
    if |ss| > 0 {
      var n := |ss| - 1;
      var prev := Apply(step, ss[..n]);
      ApplyCountsIssues(step, ss[..n]);
      var r := Apply(step, ss);
      assert r.states[..n] == prev.states;
      if prev.raised.None? {
        VisitContract(step, ss[n]);
      }
    }
  }

  /** The note count is the number of notes appended, one per accepted update. */
  lemma {:induction false} ApplyCountsNotes(step: Step, ss: seq<MoleculeState>)
    requires AllInv(ss)
    ensures Apply(step, ss).numNotes == NotesAdded(ss, Apply(step, ss).states)
    decreases |ss|
  {
    if |ss| > 0 {
      var n := |ss| - 1;
      var prev := Apply(step, ss[..n]);
      ApplyCountsNotes(step, ss[..n]);
      var r := Apply(step, ss);
      assert r.states[..n] == prev.states;
      if prev.raised.None? {
        VisitContract(step, ss[n]);
      }
    }
  }

  /** A Filter never reports notes and never raises. */
  lemma {:induction false} FilterIsQuiet(step: Step, ss: seq<MoleculeState>)
    requires step.FilterStep?
    ensures Apply(step, ss).numNotes == 0 && Apply(step, ss).raised.None?
    decreases |ss|
  {
    if |ss| > 0 {
      FilterIsQuiet(step, ss[..|ss| - 1]);
    }
  }

  /** A step removes from the passing records exactly the ones it reports as issues. */
  lemma {:induction false} ApplyPassing(step: Step, ss: seq<MoleculeState>)
    requires AllInv(ss)
    ensures CountPassing(Apply(step, ss).states) == CountPassing(ss) - Apply(step, ss).numIssues
    decreases |ss|
  {
    if |ss| > 0 {
      var n := |ss| - 1;
      var prev := Apply(step, ss[..n]);
      ApplyPassing(step, ss[..n]);
      var r := Apply(step, ss);
      assert r.states[..n] == prev.states;
      if prev.raised.None? {
        VisitContract(step, ss[n]);
      }
    }
  }

  /** `Apply` on the first `i` records, counted by position: the form the loop of `ApplyStep` walks. */
  function ApplyUpTo(step: Step, ss: seq<MoleculeState>, i: nat): (r: StepRun)
    requires i <= |ss|
    ensures |r.states| == i
    decreases i
  {
    if i == 0 then StepRun([], 0, 0, None)
    else
      var prev := ApplyUpTo(step, ss, i - 1);
      if prev.raised.Some? then StepRun(prev.states + [ss[i - 1]], prev.numNotes, prev.numIssues, prev.raised)
      else
        var v := VisitRecord(step, ss[i - 1]);
        StepRun(prev.states + [v.state],
                prev.numNotes + (if v.noted then 1 else 0),
                prev.numIssues + (if v.flagged then 1 else 0),
                v.raised)
  }

  lemma {:induction false} ApplyUpToIsApply(step: Step, ss: seq<MoleculeState>, i: nat)
    requires i <= |ss|
    ensures ApplyUpTo(step, ss, i) == Apply(step, ss[..i])
    decreases i
  {
    if i > 0 {
      ApplyUpToIsApply(step, ss, i - 1);
      assert ss[..i][..i - 1] == ss[..i - 1];
      assert ss[..i][i - 1] == ss[i - 1];
    }
  }

  /** Once a record raises, the records after it are left as they were. */
  lemma {:induction false} ApplyUpToAfterRaise(step: Step, ss: seq<MoleculeState>, k: nat, i: nat)
    requires k <= i <= |ss|
    requires ApplyUpTo(step, ss, k).raised.Some?
    ensures ApplyUpTo(step, ss, i) == ApplyUpTo(step, ss, k).(states := ApplyUpTo(step, ss, k).states + ss[k..i])
    decreases i
  {
    if i == k {
      assert ss[k..i] == [];
      assert ApplyUpTo(step, ss, k).states + [] == ApplyUpTo(step, ss, k).states;
    } else {
      ApplyUpToAfterRaise(step, ss, k, i - 1);
      assert ss[k..i] == ss[k..i - 1] + [ss[i - 1]];
    }
  }

  /** One loop step: the list with record `i` replaced by its visit. */
  lemma StepForward(ss: seq<MoleculeState>, i: nat, done: seq<MoleculeState>, cur: seq<MoleculeState>, x: MoleculeState)
    requires i < |ss| && |done| == i && cur == done + ss[i..]
    ensures cur[i := x] == done + [x] + ss[i + 1..]
  {
    var next := done + [x] + ss[i + 1..];
    assert |cur[i := x]| == |next|;
    forall j | 0 <= j < |next|
      ensures cur[i := x][j] == next[j]
    {
      if j > i {
        assert cur[j] == ss[i..][j - i] == ss[j];
      }
    }
  }

  /**
   * A visit that stopped after `k` records, at the end of the list or at a
   * raise, has produced what `Apply` answers for the whole list.
   */
  lemma FinishRun(step: Step, ss: seq<MoleculeState>, k: nat, done: seq<MoleculeState>,
                  notes: nat, issues: nat, raised: Option<string>)
    requires k <= |ss| && (raised.Some? || k == |ss|)
    requires ApplyUpTo(step, ss, k) == StepRun(done, notes, issues, raised)
    ensures Apply(step, ss) == StepRun(done + ss[k..], notes, issues, raised)
  {
    ApplyUpToIsApply(step, ss, |ss|);
    assert ss[..|ss|] == ss;
    if k == |ss| {
      assert done + ss[k..] == done;
    } else {
      ApplyUpToAfterRaise(step, ss, k, |ss|);
    }
  }

  /**
   * The states of a list of molecule objects. `MmlChemical.ChemStates` is the
   * same fold over `Chemical` objects: the two packages define unrelated
   * classes, so each has its own copy.
   */
  function States(ms: seq<Molecule>): (r: seq<MoleculeState>)
    reads ms
    ensures |r| == |ms|
    decreases |ms|
  {
    if |ms| == 0 then [] else States(ms[..|ms| - 1]) + [ms[|ms| - 1].State()]
  }

  lemma {:induction false} StatesIndex(ms: seq<Molecule>, i: nat)
    requires i < |ms|
    ensures States(ms)[i] == ms[i].State()
    decreases |ms|
  {
    if i < |ms| - 1 {
      StatesIndex(ms[..|ms| - 1], i);
    }
  }

  predicate Distinct(ms: seq<Molecule>) {
    forall i, j :: 0 <= i < j < |ms| ==> ms[i] != ms[j]
  }

  datatype StepResult = Completed(numNotes: nat, numIssues: nat) | Raised(error: string)

  /** What a call of `step` on the whole list returns. */
  function ResultOf(run: StepRun): StepResult {
    if run.raised.Some? then Raised(run.raised.value) else Completed(run.numNotes, run.numIssues)
  }

  /** One record visited by a step, through the record's own operations. */
  method VisitMolecule(step: Step, m: Molecule) returns (v: Visit)
    modifies m
    ensures v == VisitRecord(step, old(m.State())) && m.State() == v.state
  {
    var noted, flagged, raised := false, false, None;
    if !m.failedCuration {
      match step {
        case FilterStep(_, issue, passes) =>
          if !passes(m.mol) {
            m.FlagIssue(issue);
            flagged := true;
          }
        case UpdateStep(_, issue, note, update) =>
          var replacement := update(m.mol);
          if replacement.None? {
            m.FlagIssue(issue);
            flagged := true;
          } else {
            var r := m.UpdateMol(replacement, note);
            match r {
              case Failure(e) => raised := Some(e);
              case Success(changed) => noted := changed;
            }
          }
      }
    }
    v := Visit(m.State(), noted, flagged, raised);
  }

  /** The visit of `mols[i]`, which leaves every other molecule of the list as it was. */
  method VisitAt(step: Step, mols: seq<Molecule>, i: nat) returns (v: Visit)
    requires Distinct(mols) && i < |mols|
    modifies mols[i]
    ensures v == VisitRecord(step, old(States(mols))[i])
    ensures States(mols) == old(States(mols))[i := v.state]
  {
    ghost var before := States(mols);
    forall j | 0 <= j < |mols|
      ensures before[j] == mols[j].State()
    {
      StatesIndex(mols, j);
    }
    v := VisitMolecule(step, mols[i]);
    forall j | 0 <= j < |mols|
      ensures States(mols)[j] == before[i := v.state][j]
    {
      StatesIndex(mols, j);
      if j != i {
        assert mols[j] != mols[i];
      }
    }
  }

  /** The visit of the next record of `ApplyStep`'s loop, one record further along `Apply`. */
  method VisitNext(step: Step, mols: seq<Molecule>, i: nat, ghost s0: seq<MoleculeState>,
                   ghost done: seq<MoleculeState>, notes: nat, issues: nat) returns (v: Visit)
    requires Distinct(mols) && i < |mols| == |s0| && |done| == i
    requires ApplyUpTo(step, s0, i) == StepRun(done, notes, issues, None)
    requires States(mols) == done + s0[i..]
    modifies mols[i]
    ensures States(mols) == done + [v.state] + s0[i + 1..]
    ensures ApplyUpTo(step, s0, i + 1) == StepRun(done + [v.state],
                                                 notes + (if v.noted then 1 else 0),
                                                 issues + (if v.flagged then 1 else 0),
                                                 v.raised)
  {
    ghost var cur := States(mols);
    assert cur[i] == s0[i];
    v := VisitAt(step, mols, i);
    StepForward(s0, i, done, cur, v.state);
  }

  /** The loop of `step(mols)`: records visited in list order until the end or the first raise. */
  method VisitAll(step: Step, mols: seq<Molecule>)
    returns (i: nat, ghost done: seq<MoleculeState>, notes: nat, issues: nat, raised: Option<string>)
    requires Distinct(mols)
    modifies mols
    ensures i <= |mols| && (raised.Some? || i == |mols|)
    ensures ApplyUpTo(step, old(States(mols)), i) == StepRun(done, notes, issues, raised)
    ensures States(mols) == done + old(States(mols))[i..]
  {
    ghost var s0 := States(mols);
    ghost var seen: seq<MoleculeState> := [];
    var k, n, m: nat, err: Option<string> := 0, 0, 0, None;
    while k < |mols| && err.None?
      invariant 0 <= k <= |mols| == |s0| && |seen| == k
      invariant ApplyUpTo(step, s0, k) == StepRun(seen, n, m, err)
      invariant err.Some? ==> 0 < k
      invariant States(mols) == seen + s0[k..]
    {
      var v := VisitNext(step, mols, k, s0, seen, n, m);
      seen := seen + [v.state];
      n := n + (if v.noted then 1 else 0);
      m := m + (if v.flagged then 1 else 0);
      err := v.raised;
      k := k + 1;
    }
    i, done, notes, issues, raised := k, seen, n, m, err;
  }

  /** `step(mols)`: every record visited once, in list order. */
  method ApplyStep(step: Step, mols: seq<Molecule>) returns (r: StepResult)
    requires Distinct(mols)
    modifies mols
    ensures States(mols) == Apply(step, old(States(mols))).states
    ensures r == ResultOf(Apply(step, old(States(mols))))
  {
    ghost var s0 := States(mols);
    var i, done, notes, issues, raised := VisitAll(step, mols);
    FinishRun(step, s0, i, done, notes, issues, raised);
    r := if raised.Some? then Raised(raised.value) else Completed(notes, issues);
  }
}
