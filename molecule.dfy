/**
 * The record state machine of `chemcurry`: a `Molecule` wraps one structure,
 * keeps a cached content fingerprint for change detection, an append-only list
 * of notes, a write-once issue with its `failed_curation` flag, and, when
 * enabled at construction, the history of replaced structures.
 *
 * `MoleculeState` is the value of all fields; `Load`, `Update` and `Flag` say
 * what construction, `update_mol` and `flag_issue` do to it, and the class
 * `Molecule` is proved against them.
 */
module ChemcurryMolecule {
  import opened Wrappers
  import opened Structure
  import Text

  /** `id_: Union[int, str]`; uniqueness is not enforced. */
  datatype Id = IntId(n: int) | StrId(s: string)

  /** `f"{id_}"` */
  function IdText(id: Id): string {
    match id
    case IntId(n) => Text.IntToString(n)
    case StrId(s) => s
  }

  const RenderFailedIssue := "rdkit failed to render Mol object"
  const TrackHistoryError := "'track_history' cannot be change after object initialization"

  /** The message of the `ValueError` raised for an invalid replacement ("None" or "Empty Mol"). */
  function InvalidReplacementMessage(kind: string): string {
    "if molecule becomes invalid, should be caught and flagged with issue by curation step; '"
    + kind + "'"
  }

  datatype MoleculeState = MoleculeState(
    id: Id,
    mol: Mol,
    currentHash: int,
    issue: string,
    notes: seq<string>,
    failed: bool,
    history: seq<Mol>,
    trackHistory: bool)

  /**
   * What every reachable molecule satisfies: the cache is the fingerprint of
   * the current structure, history runs in step with the notes exactly when
   * tracking is on, an issue is only ever set together with the failed flag,
   * and an empty structure is always a failed one.
   */
  ghost predicate Inv(s: MoleculeState) {
    && s.currentHash == s.mol.fingerprint
    && (s.trackHistory ==> |s.history| == |s.notes|)
    && (!s.trackHistory ==> s.history == [])
    && (!s.failed ==> s.issue == "")
    && (IsEmpty(s.mol) ==> s.failed)
  }

  /** The state `Molecule(id_, mol, track_history)` builds. */
  function Load(id: Id, mol: Option<Mol>, trackHistory: bool): (s: MoleculeState)
    ensures Inv(s)
    ensures s.id == id && s.trackHistory == trackHistory && s.notes == [] && s.history == []
    ensures s.failed <==> (mol.None? || IsEmpty(mol.value))
    ensures s.failed ==> s.mol == EmptyMol && s.issue == RenderFailedIssue
    ensures !s.failed ==> s.mol == mol.value && s.issue == ""
    ensures s.currentHash == s.mol.fingerprint
  {
    if mol.None? || IsEmpty(mol.value) then
      MoleculeState(id, EmptyMol, EmptyMol.fingerprint, RenderFailedIssue, [], true, [], trackHistory)
    else
      MoleculeState(id, mol.value, mol.value.fingerprint, "", [], false, [], trackHistory)
  }

  datatype UpdateOutcome =
    | InvalidReplacement(kind: string)
    | Updated(state: MoleculeState, changed: bool)

  /** The effect of `update_mol(new_mol, note)`. */
  function Update(s: MoleculeState, newMol: Option<Mol>, note: string): UpdateOutcome {
    if newMol.None? then InvalidReplacement("None")
    else if IsEmpty(newMol.value) then InvalidReplacement("Empty Mol")
    else if newMol.value.fingerprint != s.currentHash then
      Updated(s.(notes := s.notes + [note],
                 history := if s.trackHistory then s.history + [s.mol] else s.history,
                 currentHash := newMol.value.fingerprint,
                 mol := newMol.value),
              true)
    else
      Updated(s, false)
  }

  /** The effect of `flag_issue(issue)`. */
  function Flag(s: MoleculeState, issue: string): MoleculeState {
    if !s.failed then s.(issue := issue, failed := true) else s
  }

  /** An absent or empty replacement is refused and leaves the record as it was to the caller. */
  lemma UpdateRefusesInvalid(s: MoleculeState, newMol: Option<Mol>, note: string)
    ensures Update(s, newMol, note).InvalidReplacement? <==> newMol.None? || IsEmpty(newMol.value)
  {
  }

  /**
   * A valid replacement is accepted as a change exactly when its fingerprint
   * differs from the cached one; a change appends exactly the note, replaces
   * the structure and refreshes the cache, and nothing else changes.
   */
  lemma UpdateChangeDetection(s: MoleculeState, m: Mol, note: string)
    requires Inv(s) && !IsEmpty(m)
    ensures Update(s, Some(m), note).Updated?
    ensures var t := Update(s, Some(m), note).state;
      && (Update(s, Some(m), note).changed <==> m.fingerprint != s.mol.fingerprint)
      && Inv(t)
      && t.id == s.id && t.issue == s.issue && t.failed == s.failed && t.trackHistory == s.trackHistory
      && (Update(s, Some(m), note).changed ==>
            t.mol == m && t.notes == s.notes + [note] && t.currentHash == m.fingerprint
            && t.history == (if s.trackHistory then s.history + [s.mol] else []))
      && (!Update(s, Some(m), note).changed ==> t == s)
  {
  }

  /** Repeating an accepted update is a no-op that reports no change. */
  lemma UpdateIdempotent(s: MoleculeState, m: Mol, note: string)
    requires Inv(s) && !IsEmpty(m)
    ensures var t := Update(s, Some(m), note).state;
      Update(t, Some(m), note) == Updated(t, false)
  {
  }

  /** The effect of a sequence of updates with one note, applied left to right. */
  function UpdateAll(s: MoleculeState, ms: seq<Mol>, note: string): MoleculeState
    decreases |ms|
  {
    if |ms| == 0 then s
    else
      match Update(s, Some(ms[0]), note)
      case InvalidReplacement(_) => s
      case Updated(t, _) => UpdateAll(t, ms[1..], note)
  }

  /** The number of replacements in `ms` whose fingerprint differs from the one before it. */
  function Changes(fp: int, ms: seq<Mol>): nat
    decreases |ms|
  {
    if |ms| == 0 then 0
    else (if ms[0].fingerprint != fp then 1 else 0) + Changes(ms[0].fingerprint, ms[1..])
  }

  /**
   * Over any run of valid updates, one note is added per detected change and
   * nothing else: id, issue and failed flag are untouched, the invariant holds
   * throughout, and with tracking on every note has its history entry.
   */
  lemma {:induction false} UpdateAllCountsChanges(s: MoleculeState, ms: seq<Mol>, note: string)
    requires Inv(s)
    requires forall k :: 0 <= k < |ms| ==> !IsEmpty(ms[k])
    ensures var t := UpdateAll(s, ms, note);
      && Inv(t)
      && |t.notes| == |s.notes| + Changes(s.mol.fingerprint, ms)
      && t.id == s.id && t.issue == s.issue && t.failed == s.failed
      && (s.trackHistory ==> |t.history| == |t.notes|)
    decreases |ms|
  {
    if |ms| > 0 {
      var t := Update(s, Some(ms[0]), note).state;
      UpdateChangeDetection(s, ms[0], note);
      if ms[0].fingerprint != s.mol.fingerprint {
        assert t.mol == ms[0];
      } else {
        assert t == s;
      }
      assert t.mol.fingerprint == ms[0].fingerprint;
      UpdateAllCountsChanges(t, ms[1..], note);
    }
  }

  /**
   * `flag_issue` is write-once: it sets the issue and the failed flag only on a
   * passing record, further calls change nothing, and it never touches the
   * structure, the cache, the notes or the history.
   */
  lemma FlagWriteOnce(s: MoleculeState, issue: string, later: string)
    requires Inv(s)
    ensures var t := Flag(s, issue);
      && Inv(t) && t.failed
      && (!s.failed ==> t.issue == issue)
      && (s.failed ==> t == s)
      && Flag(t, later) == t
      && t.mol == s.mol && t.currentHash == s.currentHash && t.notes == s.notes && t.history == s.history
  {
  }

  class Molecule {
    const id: Id
    var issue: string
    var notes: seq<string>
    const trackHistory: bool
    var molHistory: seq<Mol>
    var failedCuration: bool
    var mol: Mol
    var currentHash: int

    function State(): MoleculeState
      reads this
    {
      MoleculeState(id, mol, currentHash, issue, notes, failedCuration, molHistory, trackHistory)
    }

    ghost predicate Valid()
      reads this
    {
      Inv(State())
    }

    /** `Molecule(id_, mol, track_history)` */
    constructor (id: Id, mol: Option<Mol>, trackHistory: bool)
      ensures State() == Load(id, mol, trackHistory)
      ensures Valid()
    {
      this.id := id;
      this.issue := "";
      this.notes := [];
      this.trackHistory := trackHistory;
      this.molHistory := [];
      this.failedCuration := false;
      var stored: Mol;
      if mol.None? || mol.value.numAtoms == 0 {
        stored := EmptyMol;
        this.failedCuration := true;
        this.issue := RenderFailedIssue;
      } else {
        stored := mol.value;
      }
      this.mol := stored;
      this.currentHash := stored.fingerprint;
    }

    /** `get_smiles()` */
    function GetSmiles(): string
      reads this
    {
      mol.smiles
    }

    /**
     * `update_mol(new_mol, note)`: raises (`Failure`) on an absent or empty
     * replacement, otherwise reports whether a change was detected.
     */
    method UpdateMol(newMol: Option<Mol>, note: string) returns (r: Result<bool, string>)
      modifies this
      ensures match Update(old(State()), newMol, note)
        case InvalidReplacement(kind) =>
          r == Failure(InvalidReplacementMessage(kind)) && State() == old(State())
        case Updated(t, changed) =>
          r == Success(changed) && State() == t
    {
      if newMol.None? || newMol.value.numAtoms == 0 {
        var kind := if newMol.None? then "None" else "Empty Mol";
        return Failure(InvalidReplacementMessage(kind));
      }
      var hash := newMol.value.fingerprint;
      if hash != currentHash {
        ghost var s := State();
        notes := notes + [note];
        if trackHistory {
          molHistory := molHistory + [mol];
        }
        currentHash := hash;
        mol := newMol.value;
        assert State() == Update(s, newMol, note).state;
        return Success(true);
      } else {
        return Success(false);
      }
    }

    /** `flag_issue(issue)` */
    method FlagIssue(issue: string)
      modifies this
      ensures State() == Flag(old(State()), issue)
    {
      if !failedCuration {
        this.issue := issue;
        failedCuration := true;
      }
    }

    /**
     * The `track_history` setter: it always raises and changes nothing.
     * `MmlChemical.Chemical.SetTrackHistory` models the same read-only
     * property of the other package's class.
     */
    method SetTrackHistory(value: bool) returns (r: Outcome<string>)
      ensures r == Fail(TrackHistoryError)
    {
      r := Fail(TrackHistoryError);
    }
  }
}
