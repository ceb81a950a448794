/**
 * The record of the older `mml_chemical_curate` package: a `Chemical` wraps one
 * structure and one label, keeps the fingerprint of the structure it was built
 * with, an append-only list of notes, an issue with its `failed_curation` flag,
 * and, when enabled at construction, the histories of replaced structures and
 * labels.
 *
 * `ChemState` is the value of all fields. For `update_mol` and `flag_issue`
 * there are two transitions each: the code as written (`...AsWritten`) and the
 * evidently intended one, which the curation steps use.
 */
module MmlChemical {
  import opened Wrappers
  import opened Structure
  import opened Flags

  /**
   * A label value: `None`, a Python `int`, a finite `float`, the float NaN, or a
   * `str`. A string carries what `float()` answers for it: a finite value, or
   * `None` when `float()` raises `ValueError`.
   */
  datatype Label =
    | NoLabel
    | IntLabel(i: int)
    | FloatLabel(x: real)
    | NanLabel
    | StrLabel(s: string, parsed: Option<real>)

  /** `pd.isna(label)` for a scalar: `None` and NaN are missing, nothing else is. */
  predicate IsMissing(l: Label) {
    l.NoLabel? || l.NanLabel?
  }

  /** The numeric value of an `int` or finite `float` label. */
  predicate IsNumber(l: Label) {
    l.IntLabel? || l.FloatLabel?
  }

  function NumberOf(l: Label): real
    requires IsNumber(l)
  {
    if l.IntLabel? then l.i as real else l.x
  }

  /**
   * Python's `==` between two labels: numbers compare by value across `int`
   * and `float`, NaN equals nothing (not even itself), strings compare by text,
   * `None` equals only `None`, and values of different kinds are unequal.
   */
  predicate PyEq(a: Label, b: Label) {
    if IsNumber(a) && IsNumber(b) then NumberOf(a) == NumberOf(b)
    else match a
      case NoLabel => b.NoLabel?
      case StrLabel(s, _) => b.StrLabel? && b.s == s
      case _ => false
  }

  /** `PyEq` is Python's equality: symmetric, and reflexive on everything except NaN. */
  lemma PyEqLaws(a: Label, b: Label)
    ensures PyEq(a, b) == PyEq(b, a)
    ensures PyEq(a, a) <==> !a.NanLabel?
  {
  }

  const NoneToBinaryError := "'NoneType' object has no attribute 'ToBinary'"
  const TrackHistoryError := "'track_history' cannot be change after object initialization"

  /**
   * `_get_mol_hash(mol)`. Its test `Mol is not None` is about the class `Mol`,
   * not the argument, so it always calls `ToBinary()`: on `None` that raises.
   */
  function MolHash(m: Option<Mol>): (r: Result<int, string>)
    ensures r.Failure? <==> m.None?
    ensures r.Failure? ==> r.error == NoneToBinaryError
  {
    match m
    case None => Failure(NoneToBinaryError)
    case Some(x) => Success(x.fingerprint)
  }

  datatype ChemState = ChemState(
    mol: Mol,
    labelValue: Label,
    issue: Option<Issue>,
    notes: seq<Note>,
    failed: bool,
    trackHistory: bool,
    molHistory: seq<Mol>,
    molHash: int,
    labelHistory: seq<Label>)

  /**
   * What every record of the corrected model satisfies: the cached hash is the
   * fingerprint of the current structure, the record has failed exactly when
   * it carries an issue, and without tracking both histories stay empty.
   */
  ghost predicate ChemInv(s: ChemState) {
    && s.molHash == s.mol.fingerprint
    && (s.failed <==> s.issue.Some?)
    && (!s.trackHistory ==> s.molHistory == [] && s.labelHistory == [])
  }

  /** The state `Chemical(mol, label, track_history)` builds for a structure `mol`. */
  function Fresh(mol: Mol, labelValue: Label, trackHistory: bool): (s: ChemState)
    ensures ChemInv(s) && !s.failed && s.issue.None? && s.notes == []
    ensures s.molHistory == [] && s.labelHistory == []
    ensures s.mol == mol && s.labelValue == labelValue && s.trackHistory == trackHistory
    ensures MolHash(Some(mol)) == Success(s.molHash)
  {
    ChemState(mol, labelValue, None, [], false, trackHistory, [], mol.fingerprint, [])
  }

  /** `update_mol(new_mol, note)` as written, for a structure `m` (a `None` raises). */
  function MolReplacedAsWritten(s: ChemState, m: Mol, note: Note): ChemState {
    var changed := m.fingerprint != s.molHash;
    s.(notes := if changed then s.notes + [note] else s.notes,
       molHistory := if changed && s.trackHistory then s.molHistory + [s.mol] else s.molHistory,
       mol := m)
  }

  /**
   * As written, a change is detected against the fingerprint of the structure
   * the record was built with: the note is appended exactly then, the prior
   * structure is kept only with tracking on, the new structure is always
   * stored, and the cached hash never moves.
   */
  lemma UpdateMolAsWrittenEffect(s: ChemState, m: Mol, note: Note)
    ensures var t := MolReplacedAsWritten(s, m, note);
      && t.mol == m && t.molHash == s.molHash
      && t.notes == (if m.fingerprint != s.molHash then s.notes + [note] else s.notes)
      && t.molHistory == (if m.fingerprint != s.molHash && s.trackHistory then s.molHistory + [s.mol] else s.molHistory)
      && t.labelValue == s.labelValue && t.issue == s.issue && t.failed == s.failed
      && t.labelHistory == s.labelHistory && t.trackHistory == s.trackHistory
  {
  }

  /**
   * Because the hash is never refreshed, repeating an update to a structure
   * that differs from the original appends its note a second time, and the
   * record no longer satisfies the cache invariant.
   */
  lemma UpdateMolAsWrittenRepeats(s: ChemState, m: Mol, note: Note)
    requires ChemInv(s) && m.fingerprint != s.mol.fingerprint
    ensures var t := MolReplacedAsWritten(MolReplacedAsWritten(s, m, note), m, note);
      t.notes == s.notes + [note, note] && !ChemInv(t)
  {
    var t1 := MolReplacedAsWritten(s, m, note);
    assert t1.notes == s.notes + [note];
    assert t1.notes + [note] == s.notes + [note, note];
  }

  /** `update_mol` as evidently intended: the cached hash follows the stored structure. */
  function MolReplaced(s: ChemState, m: Mol, note: Note): ChemState {
    MolReplacedAsWritten(s, m, note).(molHash := m.fingerprint)
  }

  /**
   * The corrected update keeps the invariant, appends the note exactly when
   * the new structure's fingerprint differs from the current one, and is
   * idempotent.
   */
  lemma UpdateMolEffect(s: ChemState, m: Mol, note: Note)
    requires ChemInv(s)
    ensures var t := MolReplaced(s, m, note);
      && ChemInv(t) && t.mol == m
      && t.notes == (if m.fingerprint != s.mol.fingerprint then s.notes + [note] else s.notes)
      && MolReplaced(t, m, note) == t
  {
  }

  /**
   * `update_label(new_label, note, force)`; `sameObject` is the outcome of the
   * identity test `new_label is self.label`, which implies equal values.
   */
  function LabelUpdated(s: ChemState, newLabel: Label, note: Note, force: bool, sameObject: bool): ChemState
    requires sameObject ==> newLabel == s.labelValue
  {
    var appended := !sameObject || !PyEq(newLabel, s.labelValue) || force;
    s.(notes := if appended then s.notes + [note] else s.notes,
       labelHistory := if appended && s.trackHistory then s.labelHistory + [s.labelValue] else s.labelHistory,
       labelValue := newLabel)
  }

  /**
   * The note is appended unless the call is unforced and the new label is the
   * very same object and equal to the old one; the prior label is kept exactly
   * when the note is appended with tracking on; the label is always assigned;
   * nothing else changes.
   */
  lemma UpdateLabelEffect(s: ChemState, newLabel: Label, note: Note, force: bool, sameObject: bool)
    requires sameObject ==> newLabel == s.labelValue
    ensures var t := LabelUpdated(s, newLabel, note, force, sameObject);
      var skipped := !force && sameObject && PyEq(newLabel, s.labelValue);
      && t.labelValue == newLabel
      && t.notes == (if skipped then s.notes else s.notes + [note])
      && t.labelHistory == (if !skipped && s.trackHistory then s.labelHistory + [s.labelValue] else s.labelHistory)
      && t.mol == s.mol && t.molHash == s.molHash && t.molHistory == s.molHistory
      && t.issue == s.issue && t.failed == s.failed && t.trackHistory == s.trackHistory
      && (ChemInv(s) ==> ChemInv(t))
  {
  }

  /** `flag_issue(issue)` as written: it acts only when the argument is `None`. */
  function FlaggedAsWritten(s: ChemState, issue: Option<Issue>): ChemState {
    if issue.None? then s.(issue := None, failed := true) else s
  }

  /** As written, flagging with an actual issue never fails a record. */
  lemma FlagIssueAsWrittenIgnoresIssue(s: ChemState, issue: Issue)
    ensures FlaggedAsWritten(s, Some(issue)) == s
    ensures !s.failed ==> !FlaggedAsWritten(s, Some(issue)).failed
  {
  }

  /** `flag_issue` as evidently intended: the first issue is recorded and the record fails. */
  function Flagged(s: ChemState, issue: Issue): ChemState {
    if s.issue.None? then s.(issue := Some(issue), failed := true) else s
  }

  /**
   * The corrected flag is write-once: it fails a passing record with the given
   * issue, leaves a failed one as it was, and touches nothing but the issue and
   * the failed flag.
   */
  lemma FlagIssueWriteOnce(s: ChemState, issue: Issue, later: Issue)
    requires ChemInv(s)
    ensures var t := Flagged(s, issue);
      && ChemInv(t) && t.failed
      && (!s.failed ==> t.issue == Some(issue))
      && (s.failed ==> t == s)
      && Flagged(t, later) == t
      && t.mol == s.mol && t.labelValue == s.labelValue && t.notes == s.notes
      && t.molHistory == s.molHistory && t.labelHistory == s.labelHistory
  {
  }

  /** `add_note(note)`: exactly one note is appended and nothing else changes. */
  function NoteAdded(s: ChemState, note: Note): (r: ChemState)
    ensures r.notes == s.notes + [note] && r.(notes := s.notes) == s
    ensures ChemInv(s) ==> ChemInv(r)
  {
    s.(notes := s.notes + [note])
  }

  class Chemical {
    var mol: Mol
    var labelValue: Label
    var issue: Option<Issue>
    var notes: seq<Note>
    var failedCuration: bool
    const trackHistory: bool
    var molHistory: seq<Mol>
    var molHash: int
    var labelHistory: seq<Label>

    function State(): ChemState
      reads this
    {
      ChemState(mol, labelValue, issue, notes, failedCuration, trackHistory, molHistory, molHash, labelHistory)
    }

    /** `Chemical(mol, label, track_history)` for a structure that is present. */
    constructor (mol: Mol, labelValue: Label, trackHistory: bool)
      ensures State() == Fresh(mol, labelValue, trackHistory)
    {
      this.mol := mol;
      this.labelValue := labelValue;
      this.issue := None;
      this.notes := [];
      this.failedCuration := false;
      this.trackHistory := trackHistory;
      this.molHistory := [];
      this.molHash := mol.fingerprint;
      this.labelHistory := [];
    }

    /** `update_mol(new_mol, note)` as written. */
    method UpdateMolAsWritten(newMol: Option<Mol>, note: Note) returns (r: Outcome<string>)
      modifies this
      ensures newMol.None? ==> r == Fail(NoneToBinaryError) && State() == old(State())
      ensures newMol.Some? ==> r == Pass && State() == MolReplacedAsWritten(old(State()), newMol.value, note)
    {
      var h := MolHash(newMol);
      if h.Failure? {
        return Fail(h.error);
      }
      if h.value != molHash {
        notes := notes + [note];
        if trackHistory {
          molHistory := molHistory + [mol];
        }
      }
      mol := newMol.value;
      r := Pass;
    }

    /** `update_mol(new_mol, note)` with the cached hash refreshed. */
    method UpdateMol(newMol: Option<Mol>, note: Note) returns (r: Outcome<string>)
      modifies this
      ensures newMol.None? ==> r == Fail(NoneToBinaryError) && State() == old(State())
      ensures newMol.Some? ==> r == Pass && State() == MolReplaced(old(State()), newMol.value, note)
    {
      r := UpdateMolAsWritten(newMol, note);
      if newMol.Some? {
        molHash := newMol.value.fingerprint;
      }
    }

    /** `update_label(new_label, note, force)`, told whether `new_label is self.label`. */
    method UpdateLabel(newLabel: Label, note: Note, force: bool, sameObject: bool)
      requires sameObject ==> newLabel == labelValue
      modifies this
      ensures State() == LabelUpdated(old(State()), newLabel, note, force, sameObject)
    {
      if !sameObject || !PyEq(newLabel, labelValue) || force {
        notes := notes + [note];
        if trackHistory {
          labelHistory := labelHistory + [labelValue];
        }
      }
      labelValue := newLabel;
    }

    /** `flag_issue(issue)` as written. */
    method FlagIssueAsWritten(issue: Option<Issue>)
      modifies this
      ensures State() == FlaggedAsWritten(old(State()), issue)
    {
      if issue.None? {
        this.issue := issue;
        failedCuration := true;
      }
    }

    /** `flag_issue(issue)` as evidently intended. */
    method FlagIssue(issue: Issue)
      modifies this
      ensures State() == Flagged(old(State()), issue)
    {
      if this.issue.None? {
        this.issue := Some(issue);
        failedCuration := true;
      }
    }

    /** `add_note(note)` */
    method AddNote(note: Note)
      modifies this
      ensures State() == NoteAdded(old(State()), note)
    {
      notes := notes + [note];
    }

    /**
     * The `track_history` setter: it always raises and changes nothing, as
     * `ChemcurryMolecule.Molecule.SetTrackHistory` does for `Molecule`.
     */
    method SetTrackHistory(value: bool) returns (r: Outcome<string>)
      ensures r == Fail(TrackHistoryError)
    {
      r := Fail(TrackHistoryError);
    }
  }

  /** `Chemical(mol, label, track_history)`: building from `None` raises in `_get_mol_hash`. */
  method NewChemical(mol: Option<Mol>, labelValue: Label, trackHistory: bool) returns (r: Result<Chemical, string>)
    ensures r.Failure? <==> mol.None?
    ensures r.Failure? ==> r.error == NoneToBinaryError
    ensures r.Success? ==> fresh(r.value) && r.value.State() == Fresh(mol.value, labelValue, trackHistory)
  {
    var h := MolHash(mol);
    if h.Failure? {
      return Failure(h.error);
    }
    var c := new Chemical(mol.value, labelValue, trackHistory);
    r := Success(c);
  }

  /** The states of a list of chemicals. */
  function ChemStates(cs: seq<Chemical>): (r: seq<ChemState>)
    reads cs
    ensures |r| == |cs|
    decreases |cs|
  {
    if |cs| == 0 then [] else ChemStates(cs[..|cs| - 1]) + [cs[|cs| - 1].State()]
  }

  lemma {:induction false} ChemStatesIndex(cs: seq<Chemical>, i: nat)
    requires i < |cs|
    ensures ChemStates(cs)[i] == cs[i].State()
    decreases |cs|
  {
    if i < |cs| - 1 {
      ChemStatesIndex(cs[..|cs| - 1], i);
    }
  }

  predicate DistinctChems(cs: seq<Chemical>) {
    forall i, j :: 0 <= i < j < |cs| ==> cs[i] != cs[j]
  }
}
