# chemcurry curation bookkeeping, in Dafny

This project models the bookkeeping core of `chemcurry`, a chemical-structure
curation library, and of its older package `mml_chemical_curate`. The chemistry
itself is not modelled. What is modelled is the bookkeeping around it:

- **Record state machines.**
  - `Molecule` (`ChemcurryMolecule`) and `Chemical` (`MmlChemical`) each wrap one
    structure.
  - Each keeps a cached content fingerprint for change detection and an
    append-only list of notes.
  - Each has a write-once issue with its `failed_curation` flag.
  - Each keeps a history of replaced structures (and, for `Chemical`, of replaced
    labels) when history tracking was chosen at construction.
- **The step contract** (`ChemcurryStep`). A `Filter` or `Update` step is called on
  a whole list of molecules and returns `(num_notes, num_issues)`.
- **The workflow and its result set** (`ChemcurryWorkflow`):
  - the Filter-before-Update ordering diagnostic;
  - the run loop that fills the per-step issue and note counts;
  - the `remaining` survivor recurrence;
  - the lookups by index and by step name;
  - the `to_string` chain;
  - the row selection and row builders behind `to_smiles`, `to_mols`,
    `to_pandas`, `save_as_txt` and `save_as_json`.
- **The step framework of `mml_chemical_curate`** (`MmlStepBase`):
  - the boost/rdkit error classifier;
  - the checks run after a step is constructed;
  - `missing_dependency`;
  - the `__call__` loops;
  - the `GroupBy` partitioning.
- **The label steps** (`MmlLabelSteps`) and the molecular-weight band step
  (`MmlMolecularWeight`).

A structure (`Structure.Mol`) is a value that carries what the core observes of
an RDKit `Mol`: its fingerprint (standing for `hash(mol.ToBinary())`), its atom
count, its SMILES and its exact weight.

Each class whose fields the source updates in place has three parts:

- a snapshot datatype of all its fields;
- pure transition functions;
- methods proved to move the snapshot exactly as the transition says (`State() == Update(old(State()), ...)`).

The properties are proved as lemmas about the transitions. Each loop is a
method proved against a specification function, for example `ApplyStep` against
`Apply` and `RunLabelStep` against `Sweep`.

## Model

| member | source | states |
|---|---|---|
| ChemcurryMolecule.Load | src/chemcurry/molecule.py:53-71 | An absent or zero-atom structure gives the empty sentinel, a failed record and the issue "rdkit failed to render Mol object". Any other structure is stored, passing, with issue "". Notes and history start empty, the cache is the stored structure's fingerprint, and the record invariant holds. |
| ChemcurryMolecule.Molecule.constructor | src/chemcurry/molecule.py:53-71 | The new object's fields are exactly `Load(id, mol, track_history)`, and the object is valid. |
| ChemcurryMolecule.UpdateRefusesInvalid | src/chemcurry/molecule.py:114-119 | `update_mol` refuses a replacement exactly when it is absent or has no atoms. |
| ChemcurryMolecule.Molecule.UpdateMol | src/chemcurry/molecule.py:94-130 | An invalid replacement raises the "None" or "Empty Mol" message and changes no field. Otherwise the method returns whether a change was detected, and its fields become the transition's result. |
| ChemcurryMolecule.UpdateChangeDetection | src/chemcurry/molecule.py:121-130 | A valid replacement counts as a change exactly when its fingerprint differs from the current one. A change appends exactly the note, stores the structure, refreshes the cache and adds the prior structure to history only when tracking. Without a change the record is unchanged. Id, issue and failed flag are untouched in both cases, and the invariant is kept. |
| ChemcurryMolecule.UpdateIdempotent | src/chemcurry/molecule.py:129-130 | Repeating an accepted update reports no change and leaves the record as it is. |
| ChemcurryMolecule.UpdateAllCountsChanges | src/chemcurry/molecule.py:121-128 | Over any run of valid updates, the notes grow by exactly the number of fingerprint changes along the run. With tracking on, history length equals notes length. Id, issue and failed flag never change. |
| ChemcurryMolecule.FlagWriteOnce | src/chemcurry/molecule.py:147-149 | `flag_issue` fails a passing record with the given issue and leaves a failed one as it was. A second flag changes nothing. Structure, cache, notes and history are untouched. |
| ChemcurryMolecule.Molecule.FlagIssue | src/chemcurry/molecule.py:132-149 | The object's fields move exactly as the write-once flag transition says. |
| ChemcurryMolecule.Molecule.SetTrackHistory | src/chemcurry/molecule.py:89-92 | The setter always raises the "cannot be change" error. |
| ChemcurryStep.VisitContract | tests/test_steps/test_base.py:134-149 | One record: a failed record gets no change, no note, no flag and no raise. A flag is exactly a move from passing to failed, and a note is exactly one appended note. A Filter never notes or raises, a raise leaves the record as it was, and the record invariant and id are kept. |
| ChemcurryStep.VisitMolecule | tests/test_steps/test_base.py:202-221 | Visiting one `Molecule` through its own `flag_issue` and `update_mol` has exactly the one-record effect and counts of the specification. |
| ChemcurryStep.ApplyPreserves | tests/test_steps/test_base.py:202-221 | After a step over a list, every record still satisfies the record invariant. |
| ChemcurryStep.ApplyKeepsFailed | tests/test_steps/test_base.py:134-149 | A step keeps every record's id and leaves already-failed records untouched. |
| ChemcurryStep.ApplyCountsIssues | tests/test_steps/test_base.py:134-149 | The issue count a step returns equals the number of records it moved from passing to failed. |
| ChemcurryStep.ApplyCountsNotes | tests/test_steps/test_base.py:202-221 | The note count equals the number of notes appended, which is one per update that reported a change. |
| ChemcurryStep.FilterIsQuiet | tests/test_steps/test_base.py:134-139 | A Filter returns 0 notes and never raises. |
| ChemcurryStep.ApplyPassing | tests/test_steps/test_base.py:134-149 | A step removes from the passing records exactly as many as its issue count. |
| ChemcurryStep.ApplyStep | src/chemcurry/workflow.py:107 | `step(mols)` leaves the molecules in the states `Apply` gives. It returns that run's counts, or the error that stopped it. |
| ChemcurryWorkflow.DiagnoseOrdering | src/chemcurry/workflow.py:64-76 | The constructor's loop with its seen-a-filter flag emits exactly the specified warning list. |
| ChemcurryWorkflow.CurationWorkflow.constructor | src/chemcurry/workflow.py:43-76 | The workflow keeps its steps and tracking flag, and records the warnings for its step list. |
| ChemcurryWorkflow.LateUpdatesSound | src/chemcurry/workflow.py:64-68 | Every listed position is an Update step with a Filter step somewhere before it. |
| ChemcurryWorkflow.LateUpdatesComplete | src/chemcurry/workflow.py:64-68 | Every Update step with a Filter step before it is listed. |
| ChemcurryWorkflow.LateUpdatesOrdered | src/chemcurry/workflow.py:65-68 | The listed positions are strictly increasing, which is step order. |
| ChemcurryWorkflow.WarningsNameLateUpdates | src/chemcurry/workflow.py:64-76 | There is one warning per late Update step, in step order, each naming its step. |
| ChemcurryWorkflow.NoWarningsIff | src/chemcurry/workflow.py:64-76 | No warning is emitted if and only if warnings are suppressed or every Update step precedes every Filter step. |
| ChemcurryWorkflow.FilterThenUpdateWarns | src/chemcurry/workflow.py:64-76 | [Filter, Update] gives the one warning naming the Update. [Update, Filter] gives none. |
| ChemcurryWorkflow.RunAll | src/chemcurry/workflow.py:105-110 | The loop calls each step on the whole list, in order. The molecules end in the run's states, the counts collected are the run's, and a raise ends the loop with its error. |
| ChemcurryWorkflow.RunPreserves | src/chemcurry/workflow.py:105-107 | A run keeps the invariant of every record. |
| ChemcurryWorkflow.RunKeepsFailed | src/chemcurry/workflow.py:105-107 | A run keeps ids and never touches a record that had already failed. |
| ChemcurryWorkflow.RunPassing | src/chemcurry/workflow.py:102-110 | When nothing raised, the run removes from the passing records exactly the sum of the issue counts. |
| ChemcurryWorkflow.RunEntryReturned | src/chemcurry/workflow.py:105-110 | Entry k of each count list is what step k returned on the records the earlier steps left. |
| ChemcurryWorkflow.RunEntry | src/chemcurry/workflow.py:105-110 | Entry k of the issue list counts the records step k moved to failed, and entry k of the note list counts the notes it added. A Filter's note entry is 0. |
| ChemcurryWorkflow.RunAfterRaise | src/chemcurry/workflow.py:105-107 | Once a step raised, no later step runs. |
| ChemcurryWorkflow.Durations | src/chemcurry/workflow.py:105-108 | One duration per step, in order, each the clock's measurement for that step. |
| ChemcurryWorkflow.CurationWorkflow.RunWorkflow | src/chemcurry/workflow.py:78-112 | A raise fails the call with that error. Otherwise the result set holds the same molecules. Its issue counts are the failures at load followed by the steps' counts, its note counts are 0 followed by the steps' counts, and its timings are 0 followed by the durations. |
| ChemcurryWorkflow.LoadAll | src/chemcurry/workflow.py:178-187 | One record per input, paired with ids truncated to the shorter list, or numbered by position. Every record satisfies the invariant. |
| ChemcurryWorkflow.LoadAllRecords | src/chemcurry/workflow.py:139-148 | Each built record carries its position or its paired id. It fails exactly when its input is absent or empty, and starts without notes. |
| ChemcurryWorkflow.BuildMolecules | src/chemcurry/workflow.py:178-187 | The comprehension builds fresh, pairwise distinct molecules whose states are exactly `LoadAll`. |
| ChemcurryWorkflow.CurationWorkflow.CurateMols | src/chemcurry/workflow.py:152-189 | `curate_mols` is the run over the built records. Its counts start with the number that failed at load, and its source is "List of SMILES", as line 189 writes it (the `_run_workflow` docstring at line 91 says `curate_mols` should record "List of Mols"). |
| ChemcurryWorkflow.CurationWorkflow.CurateSmiles | src/chemcurry/workflow.py:114-150 | `curate_smiles` is the same as `curate_mols` on the parsed inputs. |
| ChemcurryWorkflow.CurationWorkflow.ToString | src/chemcurry/workflow.py:191-202 | The string is "RDKitLoading" then every step's class name, in step order, joined by " -> ". With no steps it is "RDKitLoading -> ", arrow included. |
| ChemcurryWorkflow.Remaining | src/chemcurry/workflow.py:265-267 | The list has one more entry than the issue counts. It starts at the molecule count, and each next entry is the previous one less that issue count. |
| ChemcurryWorkflow.ComputeRemaining | src/chemcurry/workflow.py:265-267 | The constructor's append loop produces exactly the recurrence. |
| ChemcurryWorkflow.RemainingLast | src/chemcurry/workflow.py:265-267 | The last survivor count is the molecule count less the sum of the issue counts. |
| ChemcurryWorkflow.RemainingNonIncreasing | src/chemcurry/workflow.py:265-271 | With non-negative issue counts, the survivor counts never increase. |
| ChemcurryWorkflow.CuratedMoleculeSet.constructor | src/chemcurry/workflow.py:221-271 | The fields are stored, `remaining` is the recurrence, and the asserted length relations hold. |
| ChemcurryWorkflow.PassingIsLastRemaining | src/chemcurry/workflow.py:265-271 | After a run without raise, the number of passing molecules is the last survivor count of the result set built from it. |
| ChemcurryWorkflow.CuratedMoleculeSet.GetPassingMask | src/chemcurry/workflow.py:403-407 | The mask has one entry per molecule, and its number of trues is the number of passing molecules. |
| ChemcurryWorkflow.MaskCount | src/chemcurry/workflow.py:403 | The trues in the mask count the passing records. |
| ChemcurryWorkflow.CuratedMoleculeSet.NumIssuesAtIndex | src/chemcurry/workflow.py:434-435 | A step index gives `num_issues[idx]`. Python's negative indices are accepted, and exactly the out-of-range ones raise. |
| ChemcurryWorkflow.CuratedMoleculeSet.NumNotesAtIndex | src/chemcurry/workflow.py:468-469 | The same lookup on `num_notes`. |
| ChemcurryWorkflow.CuratedMoleculeSet.RemainingAfterIndex | src/chemcurry/workflow.py:502-503 | The lookup gives `remaining[idx + 1]`. Index -1 gives the molecule count, and exactly the out-of-range indices raise. |
| ChemcurryWorkflow.Occurrences | src/chemcurry/workflow.py:437-441 | The positions carrying a name: all of them, only them, in increasing order. |
| ChemcurryWorkflow.OccurrencesCount | src/chemcurry/workflow.py:437-441 | There are as many positions as occurrences of the name. |
| ChemcurryWorkflow.CuratedMoleculeSet.NumIssuesByName | src/chemcurry/workflow.py:436-441 | The list holds `num_issues[i + 1]` for every step i of that name, in run order. Its length is the name's occurrence count. |
| ChemcurryWorkflow.CuratedMoleculeSet.NumNotesByName | src/chemcurry/workflow.py:470-475 | The same lookup on `num_notes`. |
| ChemcurryWorkflow.CuratedMoleculeSet.RemainingAfterName | src/chemcurry/workflow.py:504-509 | The list holds `remaining[i + 2]` for every step i of that name, in run order. |
| ChemcurryWorkflow.KeptAsWrittenSelectsFailed | src/chemcurry/workflow.py:292-296 | As written, the selection keeps only failed molecules: all of them without `include_failed`, none with it. |
| ChemcurryWorkflow.PassingRecordDropped | src/chemcurry/workflow.py:318 | As written, a single passing molecule is dropped. The documented selection keeps it. |
| ChemcurryWorkflow.KeptColumnsAsWritten | src/chemcurry/workflow.py:295 | The SMILES and structure columns of the as-written selection: empty with `include_failed`, otherwise one per failed record. Each structure is a failed record's. |
| ChemcurryWorkflow.PassingAt | src/chemcurry/workflow.py:277-296 | The positions of the passing molecules: all of them, only them, in increasing order. |
| ChemcurryWorkflow.KeptIsPassingInOrder | src/chemcurry/workflow.py:277-296 | Without `include_failed`, the documented selection is the passing molecules in set order: entry k is the molecule at the k-th passing position. |
| ChemcurryWorkflow.KeptColumnsDocumented | src/chemcurry/workflow.py:295 | The columns of the documented selection: every record's, in order, with `include_failed`. Otherwise entry k is the SMILES, or the structure, of the k-th passing record, one per passing record. |
| ChemcurryWorkflow.KeptSelectsDocumented | src/chemcurry/workflow.py:361 | The documented selection keeps every record, in order, under `include_failed`. Otherwise it keeps the passing records and only them, in record order, entry k being the record at the k-th passing position. |
| ChemcurryWorkflow.CuratedMoleculeSet.ToSmilesAsWritten | src/chemcurry/workflow.py:277-296 | As written, `to_smiles(True)` is empty and `to_smiles(False)` has one entry per failed molecule. Entry for entry, it is the SMILES of what `to_mols` returns as written. |
| ChemcurryWorkflow.CuratedMoleculeSet.ToSmiles | src/chemcurry/workflow.py:277-296 | As documented, `include_failed` gives every molecule's SMILES in set order. Otherwise it gives the passing molecules' SMILES in set order, entry k being that of the k-th passing molecule. Entry for entry, it is the SMILES of what `to_mols` returns. |
| ChemcurryWorkflow.CuratedMoleculeSet.ToMolsAsWritten | src/chemcurry/workflow.py:298-318 | As written, `to_mols(True)` is empty. `to_mols(False)` has one structure per failed molecule, each a failed molecule's structure. |
| ChemcurryWorkflow.CuratedMoleculeSet.ToMols | src/chemcurry/workflow.py:298-318 | As documented, `include_failed` gives every molecule's structure in set order. Otherwise it gives the passing molecules' structures in set order, entry k being that of the k-th passing molecule. |
| ChemcurryWorkflow.CuratedMoleculeSet.ToPandasAsWritten | src/chemcurry/workflow.py:359-376 | As written, `pd.DataFrame` raises its "All arrays must be of the same length" `ValueError` exactly when one optional column is asked for without the other and some molecule is kept. Otherwise the frame is the intended one. |
| ChemcurryWorkflow.CuratedMoleculeSet.ToPandas | src/chemcurry/workflow.py:359-376 | The method returns the intended frame, in which each flag fills its own column. |
| ChemcurryWorkflow.FrameAsWrittenRagged | src/chemcurry/workflow.py:365-368 | The as-written columns all have one length exactly when both flags are equal or nothing is kept. In those cases the frame is the intended one. |
| ChemcurryWorkflow.FrameOfShape | src/chemcurry/workflow.py:359-376 | The intended frame is rectangular, with one row per kept molecule in order: every molecule under `include_failed`, otherwise row k holds the id, SMILES, structure and notes of the k-th passing molecule and the issue "PASSED". It has the issue column exactly under `include_issues` and the notes column exactly under `include_notes`. |
| ChemcurryWorkflow.TxtLineFields | src/chemcurry/workflow.py:602-611 | A row splits at tabs into id, SMILES, issue field, then the notes (a single empty field when there are none). |
| ChemcurryWorkflow.TxtRowAsWrittenHidesIssue | src/chemcurry/workflow.py:607 | As written, a failed molecule's row says "PASSED", which differs from the documented row whenever its issue is not literally "PASSED". |
| ChemcurryWorkflow.CuratedMoleculeSet.SaveAsTxtAsWritten | src/chemcurry/workflow.py:603-611 | As written, there is one newline-terminated line per molecule, in order. Split at tabs, it gives id, SMILES, then "PASSED" for a failed molecule (the issue text for a passing one), then the notes. |
| ChemcurryWorkflow.CuratedMoleculeSet.SaveAsTxt | src/chemcurry/workflow.py:590-611 | The documented lines: the same fields, with the issue text for a failed molecule and "PASSED" otherwise. |
| ChemcurryWorkflow.CuratedMoleculeSet.SaveAsJson | src/chemcurry/workflow.py:630-638 | One record per molecule, failed ones included. They agree field for field with the full `to_pandas` frame, with the issue text for a failed molecule and "PASSED" otherwise. |
| ChemcurryWorkflow.JsonAgreesWithFrame | src/chemcurry/workflow.py:630-638 | Field for field, the JSON records equal the rows of the full frame and carry the documented txt issue field. |
| MmlChemical.PyEqLaws | src/mml_chemical_curate/chemical.py:102 | The label equality is symmetric, and reflexive except on NaN. |
| MmlChemical.MolHash | src/mml_chemical_curate/chemical.py:53-59 | `_get_mol_hash` raises exactly on `None`, because its test is about the class and not the argument. Otherwise it is the fingerprint. |
| MmlChemical.Fresh | src/mml_chemical_curate/chemical.py:29-41 | A new record passes, with no issue, no notes and empty histories. It stores the structure and label, caches the structure's hash, and satisfies the invariant. |
| MmlChemical.NewChemical | src/mml_chemical_curate/chemical.py:23-41 | Construction raises exactly for an absent structure. Otherwise the new object's state is `Fresh`. |
| MmlChemical.Chemical.constructor | src/mml_chemical_curate/chemical.py:29-41 | The object's fields are exactly `Fresh(mol, label, track_history)`. |
| MmlChemical.UpdateMolAsWrittenEffect | src/mml_chemical_curate/chemical.py:76-80 | As written, the note is appended exactly when the new fingerprint differs from the hash cached at construction. The prior structure is kept only when tracking as well. The structure is always stored, and the cached hash never moves. |
| MmlChemical.UpdateMolAsWrittenRepeats | src/mml_chemical_curate/chemical.py:39 | As written, repeating an update to a changed structure appends the note twice and breaks the cache invariant. |
| MmlChemical.Chemical.UpdateMolAsWritten | src/mml_chemical_curate/chemical.py:61-80 | `None` raises in the hash and changes nothing. Otherwise the object moves as the as-written transition says. |
| MmlChemical.UpdateMolEffect | src/mml_chemical_curate/chemical.py:61-80 | The corrected update keeps the invariant and always stores the structure. It appends the note exactly when the fingerprint differs from the current structure's, and it is idempotent. |
| MmlChemical.Chemical.UpdateMol | src/mml_chemical_curate/chemical.py:61-80 | The object moves as the corrected transition says, with the same raise on `None`. |
| MmlChemical.UpdateLabelEffect | src/mml_chemical_curate/chemical.py:102-106 | The note is appended unless the call is unforced and the new label is the same object and equal to the old one. The prior label is kept exactly when the note is appended with tracking on. The label is always assigned, and nothing else changes. |
| MmlChemical.Chemical.UpdateLabel | src/mml_chemical_curate/chemical.py:82-106 | The object moves exactly as the label transition says. |
| MmlChemical.FlagIssueAsWrittenIgnoresIssue | src/mml_chemical_curate/chemical.py:123-125 | As written, flagging with an actual issue changes nothing, so a passing record stays passing. |
| MmlChemical.Chemical.FlagIssueAsWritten | src/mml_chemical_curate/chemical.py:108-125 | The object moves as the as-written flag transition says. |
| MmlChemical.FlagIssueWriteOnce | src/mml_chemical_curate/chemical.py:108-122 | The corrected flag fails a passing record with the given issue and leaves a failed one as it was. A later flag changes nothing. Only the issue and the failed flag change. |
| MmlChemical.Chemical.FlagIssue | src/mml_chemical_curate/chemical.py:108-125 | The object moves as the corrected flag transition says. |
| MmlChemical.NoteAdded | src/mml_chemical_curate/chemical.py:146 | `add_note` appends exactly one note, changes nothing else, and keeps the invariant. |
| MmlChemical.Chemical.AddNote | src/mml_chemical_curate/chemical.py:127-146 | The object moves as `NoteAdded` says. |
| MmlChemical.Chemical.SetTrackHistory | src/mml_chemical_curate/chemical.py:48-51 | The setter always raises. |
| MmlStepBase.CheckForBoostRdkitError | src/mml_chemical_curate/steps/base.py:37-38 | True exactly when the lower-cased message contains both "boost" and "rdkit". |
| MmlStepBase.BoostCheckIgnoresCase | src/mml_chemical_curate/steps/base.py:37-38 | Lower-casing the message first does not change the answer. |
| MmlStepBase.PostInit | src/mml_chemical_curate/steps/base.py:115-173 | The checks pass exactly when the rank is a non-negative int, the issue and the note are each null or of their enum, and they are not both null. The error follows source order: missing rank, invalid rank, the issue check (a list or tuple gets its own error), the note check, then both null. |
| MmlStepBase.RankZeroAccepted | src/mml_chemical_curate/steps/base.py:128-133 | Rank 0 passes, although the message asks for a non-zero rank. |
| MmlStepBase.PostInitOfAccepts | src/mml_chemical_curate/steps/base.py:122-173 | A step with well-typed attributes is accepted exactly when its rank is non-negative and it declares an issue or a note. |
| MmlLabelSteps.LabelStepNames | src/mml_chemical_curate/steps/base.py:184-190 | `repr` equals `str`. Two label steps print the same exactly when they are of the same class, whatever their parameters. Only the numeric-conversion step prints "CurateNumericalLabel". |
| MmlStepBase.MissingDependency | src/mml_chemical_curate/steps/base.py:192-209 | The result is a subset of the dependencies. A name is in it exactly when it is declared and no given step has that name, and nothing declared means nothing missing. |
| MmlStepBase.AlternativesAreLiteral | src/mml_chemical_curate/steps/base.py:192-193 | "A\|B" is one literal name: it is missing even when steps A and B are both present. |
| MmlStepBase.CallEach | src/mml_chemical_curate/steps/base.py:224-227 | Each element is visited once, in list order, and `_func`'s result is its new value. The same loop serves `GroupCurationStep.__call__` at lines 242-245. |
| MmlStepBase.KeysDistinct | src/mml_chemical_curate/steps/base.py:271-276 | The group keys are pairwise distinct. |
| MmlStepBase.KeyListed | src/mml_chemical_curate/steps/base.py:273-274 | Every item's key has a group. |
| MmlStepBase.ListedKeyOccurs | src/mml_chemical_curate/steps/base.py:273-274 | Every group's key is some item's key. |
| MmlStepBase.MembersOfKey | src/mml_chemical_curate/steps/base.py:271-276 | A key's group is non-empty exactly when the key is listed, and all its members carry that key. |
| MmlStepBase.MemberOfOwnGroup | src/mml_chemical_curate/steps/base.py:273-274 | Every item is in the group of its own key. |
| MmlStepBase.ItemInExactlyOneGroup | src/mml_chemical_curate/steps/base.py:269-276 | An item is in a group exactly when that group's key is its own, and the keys are distinct, so it lands in exactly one group. |
| MmlStepBase.GroupSizesTotal | src/mml_chemical_curate/steps/base.py:269-276 | The group sizes add up to the number of items. |
| MmlStepBase.KeysFirstOccurrence | src/mml_chemical_curate/steps/base.py:276 | Groups come in the order of their key's first occurrence: an item with an earlier group's key always precedes any item with a later group's key. |
| MmlStepBase.GroupBy | src/mml_chemical_curate/steps/base.py:269-276 | The dictionary pass returns one group per distinct key, in first-occurrence order. Each group holds exactly the items with that key, in input order. |
| MmlLabelSteps.LabelStepsAreValid | src/mml_chemical_curate/steps/label.py:11-116 | Every label step passes the checks made after construction, with a non-negative rank. Only `CurateBinarizeLabel` declares a dependency: `{"CurateNumericalLabel"}` at rank 6. Its dependency is missing from a step list exactly when the list has no numeric-conversion step. |
| MmlLabelSteps.NewFillMissingLabel | src/mml_chemical_curate/steps/label.py:29-37 | The constructor raises exactly when the fill value is itself missing. Otherwise it builds the step with that value. |
| MmlLabelSteps.Spacing | src/mml_chemical_curate/steps/label.py:61 | The spacing of doubles around an integer magnitude: 1 below 2 ** 53, otherwise such that the magnitude lies between 2 ** 52 and 2 ** 53 spacings. |
| MmlLabelSteps.RoundedMantissa | src/mml_chemical_curate/steps/label.py:61 | `float(int)` rounding: the result is a multiple of the spacing, at most 2 ** 53 of them, within half a spacing of the integer, and an even multiple on a tie. |
| MmlLabelSteps.RoundToDoubleExact | src/mml_chemical_curate/steps/label.py:61 | Integers up to 2 ** 53 in magnitude convert exactly; 2 ** 53 + 1 rounds down to 2 ** 53 and 2 ** 53 + 3 up to 2 ** 53 + 4. |
| MmlLabelSteps.IntToFloat | src/mml_chemical_curate/steps/label.py:61 | `float(i)` is exact up to 2 ** 53 in magnitude, otherwise within half a spacing of `i` with its sign. `OverflowError` happens only beyond 2 ** 53, when the rounded magnitude reaches 2 ** 1024. |
| MmlLabelSteps.ToFloat | src/mml_chemical_curate/steps/label.py:61 | `float(label)`: `None` raises `TypeError`, an int too large for a double raises `OverflowError`, and an unparsable string raises `ValueError`. A float, NaN included, is returned as the same object. An int gives its rounded double, exact up to 2 ** 53, and a numeric string its parsed value. |
| MmlLabelSteps.Compare | src/mml_chemical_curate/steps/label.py:123 | The comparison with the threshold is strict. NaN compares false, and `None` or a string raises `TypeError`. |
| MmlLabelSteps.LabelVisitContract | src/mml_chemical_curate/steps/label.py:19-21 | Per record: a failed record is skipped, a raise leaves the record as it was, and the invariant is kept. A raise happens exactly on a numeric conversion of `None` or of an int too large for a double (the `OverflowError` is not the caught `ValueError`), or on binarizing `None` or a string. |
| MmlLabelSteps.SweepWithoutRaise | src/mml_chemical_curate/steps/label.py:18-23 | While no record raises, each record's outcome is its own one-record visit. |
| MmlLabelSteps.SweepAfterRaise | src/mml_chemical_curate/steps/label.py:56-63 | After a raise, the remaining records are not visited. |
| MmlLabelSteps.SweepKeepsFailed | src/mml_chemical_curate/steps/label.py:119-121 | Every label step's loop leaves already-failed records untouched, whether or not it raised. |
| MmlLabelSteps.SweepPreserves | src/mml_chemical_curate/steps/label.py:118-126 | The loop keeps the invariant of every record. |
| MmlLabelSteps.MissingLabelFlagsMissing | src/mml_chemical_curate/steps/label.py:18-23 | `CurateMissingLabel` flags exactly the passing records whose label is missing, with `missing_label`. It leaves every other record as it was and never raises. |
| MmlLabelSteps.FillMissingFillsMissing | src/mml_chemical_curate/steps/label.py:39-44 | The corrected fill gives every passing record with a missing label the fill value and the `filled_missing_label` note, with the prior label in history when tracking. Present labels and failed records are not touched. |
| MmlLabelSteps.FillAsWrittenStopsAtFirst | src/mml_chemical_curate/steps/label.py:45 | As written, the first fill raises `AttributeError`, so a second record with a missing label keeps it. The corrected step fills both. |
| MmlLabelSteps.NumericalLabelConverts | src/mml_chemical_curate/steps/label.py:56-63 | When no passing label makes `float` raise: an unparsable string fails its record with `non_numeric_label`, and every other label becomes its float value, an int its rounded double (exact up to 2 ** 53). The `label_made_numeric` note is added unless the label was already that very float (NaN gets the note, being unequal to itself). |
| MmlLabelSteps.NumericalLabelRaises | src/mml_chemical_curate/steps/label.py:60-63 | A passing record labelled `None`, or with an int too large for a double, makes the step raise, and the records after it are left unvisited. |
| MmlLabelSteps.FilterLabelFlagsRejected | src/mml_chemical_curate/steps/label.py:83-88 | `CurateFilterLabel` flags a passing record with `failed_custom_label_filter` exactly when the filter rejects its label. |
| MmlLabelSteps.BinarizeLabelClasses | src/mml_chemical_curate/steps/label.py:118-126 | The label becomes 1 exactly when it is strictly above the threshold (below, with `greater` false), and 0 otherwise, NaN included. Because the update is forced, every passing record gets the `binarized_label` note, and none fails. |
| MmlLabelSteps.VisitChemical | src/mml_chemical_curate/steps/label.py:18-126 | The loop body on one `Chemical`, through its own operations, has exactly the one-record effect of the specification. |
| MmlLabelSteps.RunLabelStep | src/mml_chemical_curate/steps/label.py:18-126 | `_func(chemicals)` leaves the chemicals exactly in the states of `Sweep` and returns its exception. |
| MmlMolecularWeight.NewCurateMW | src/mml_chemical_curate/steps/mw.py:33-39 | The intended construction succeeds exactly when `0 < min_mw <= max_mw`. It fails first on `min_mw <= 0`, then on `min_mw > max_mw`. |
| MmlMolecularWeight.CurateMWAsWritten | src/mml_chemical_curate/steps/base.py:64-70 | As written, construction succeeds only when no argument is passed, giving the default band. The `__init__` errors come first, and then any explicit argument makes the argument-less `__post_init__` raise `TypeError`. |
| MmlMolecularWeight.ExplicitBoundsRefused | src/mml_chemical_curate/steps/base.py:69-70 | `CurateMW(2, 100)` and `CurateMW(2)` are accepted by the intended constructor and refused as written. `CurateMW()` builds in both. |
| MmlMolecularWeight.DefaultCurateMW | src/mml_chemical_curate/steps/mw.py:12 | The defaults, 1 and infinity, build a step. |
| MmlMolecularWeight.MwInfoIsValid | src/mml_chemical_curate/steps/mw.py:28-29 | The step passes the checks made after construction, with rank 4, issue `wrong_mw` and no note. |
| MmlMolecularWeight.DefaultBandIsAtLeastOne | src/mml_chemical_curate/steps/mw.py:12-18 | With the defaults, the band is exactly the weights of at least 1. |
| MmlMolecularWeight.MwSweepFlagsOutOfBand | src/mml_chemical_curate/steps/mw.py:41-46 | A record changes exactly when it was passing and its weight lies outside the inclusive band, and then it fails with `wrong_mw` and nothing else changes. Failed records are skipped, and the invariant is kept. |
| MmlMolecularWeight.MwSweepIdempotent | src/mml_chemical_curate/steps/mw.py:41-46 | Running the step a second time changes nothing. |
| MmlMolecularWeight.MwVisitChemical | src/mml_chemical_curate/steps/mw.py:42-46 | The loop body on one `Chemical` has exactly the one-record effect. |
| MmlMolecularWeight.RunMw | src/mml_chemical_curate/steps/mw.py:41-46 | `_func(chemicals)` leaves every chemical in the state of its own one-record visit. |
| MmlMolecularWeight.MwCallAsWritten | src/mml_chemical_curate/steps/base.py:224-226 | As written, calling the step on a non-empty list raises "'Chemical' object is not iterable" at the first chemical and changes no chemical. An empty list raises nothing. |
| MmlMolecularWeight.OutOfBandNotFlaggedAsWritten | src/mml_chemical_curate/steps/mw.py:41-46 | A passing chemical outside the band is failed with `wrong_mw` by the intended sweep, while the call as written raises and leaves it passing. |

## Left out

- Reports and persistence are left out: `get_report_string`, `write_report`, `save`, `save_as_csv`, `save_as_pandas` and the file writes of `save_as_txt` and `save_as_json`. They are I/O, pickling and date formatting. The rows that `save_as_txt` and `save_as_json` write are modelled.
- Time is a parameter: `clock(k)` is the duration measured for step k, standing for `datetime.now()`.
- RDKit is reduced to the projections of `Structure.Mol`.
  - `MolFromSmiles` is the `parse` parameter of `CurateSmiles`.
  - `from_smiles` and `get_smiles` read through that value.
  - `CalcExactMolWt` is the `exactWeight` field.
- The chemcurry `Filter` and `Update` classes are not part of this model. A step is a datatype carrying its per-record predicate, or its per-record transform, which answers a structure or `None`. Its behaviour follows the step tests. A replacement that `update_mol` refuses is an error that ends the step and the run.
- Aliasing is excluded. The loops over molecule and chemical objects require pairwise distinct objects, which is what `curate_smiles` and `curate_mols` always build.
- The `CuratedMoleculeSet` constructor's asserts on `timings` and `num_issues` are stated as `requires`. The constructor also requires `|num_notes| == |steps| + 1`, which the source does not assert and its docstring states differently. `remaining`'s length is proved, not required. The only caller, `RunWorkflow`, meets all three.
- RunAll: when a step raises, the counts collected so far are not part of the contract, because Python returns no result set then.
- ChemcurryWorkflow.CuratedMoleculeSet.GetPassingMask: the `as_numpy` variant is the same list, and the array type is not modelled.
- Text.Lower folds ASCII letters only, not all of Python's `str.lower`.
- The label steps and `CurateMW` model `_func` over a list. In the source:
  - the label steps define no `__call__`, so Python's abstract-class check would refuse to instantiate them, and so would the post-init argument mismatch for those that take arguments (see Findings);
  - `CurateMW` inherits the single-chemical `__call__`, which hands `_func` one chemical at a time, so as written any call on a non-empty list raises `TypeError` before a weight is checked (`MwCallAsWritten`, see Findings); `RunMw` is the intended call.
- The steps of `mml_chemical_curate` flag with the corrected `flag_issue` (see Findings). As written, they would never fail a record.
- `base.py` imports `BaseChemicalGroup`, which `chemical.py` does not define. Groups are modelled as sequences of items, and `GroupBy.group_class` is taken as the identity.
- CallEach: the effect of `_func` on a chemical or group is modelled as replacing that element with a value, not as mutation of shared objects.
- The label hash cached at construction (`_label_hash`) is never read by the source and is not modelled. The deep copies made by the constructors are implicit, because structures and labels are values.
- Label values are `None`, int, finite float, NaN and str. Python bools, infinite floats, and strings that `float()` parses to NaN or infinity are not modelled, because a string's parsed value is a finite number or nothing.
- MmlLabelSteps.Compare: the error message assumes a float threshold.
- MmlLabelSteps.ToFloat: the rounding of an int is proved to be the nearest multiple of the spacing with ties to even, but the exact overflow threshold (2 ** 1024 - 2 ** 970) is not stated as a lemma, and `Spacing` is not proved to be a power of two.
- MmlLabelSteps.LabelStepsAreValid: it checks the declared attributes through the reconstruction `PostInitOf`, not the raw objects.
- MmlMolecularWeight.NewCurateMW: this is the intended constructor, which the rest of the model uses; the as-written call is `CurateMWAsWritten`. The bounds are reals, with an infinite upper bound. NaN bounds, an infinite lower bound and the text of the two `ValueError` messages are not modelled; the errors are distinguished by datatype constructor.
- The `track_history` getters are the `trackHistory` constants. The flags enumerations are the `Flags` datatypes.

## Findings

| source | as written | input that shows it | evidently intended | confidence | as-written member | corrected member |
|---|---|---|---|---|---|---|
| src/chemcurry/workflow.py:295 | `to_smiles`/`to_mols` keep a molecule only when `not include_failed and failed_curation` | one passing molecule, `include_failed=False`: the result is empty | passing molecules kept, every molecule kept with `include_failed` | not executed; high (docstring and tests) | ChemcurryWorkflow.PassingRecordDropped | ChemcurryWorkflow.KeptSelectsDocumented |
| src/chemcurry/workflow.py:365-368 | `to_pandas` fills the issue list under `include_notes` and the notes list under `include_issues` | one passing molecule, `include_issues=True`, `include_notes=False`: `pd.DataFrame` gets an empty issue list beside one-row lists and raises `ValueError` | each flag fills its own column | not executed; high | ChemcurryWorkflow.CuratedMoleculeSet.ToPandasAsWritten | ChemcurryWorkflow.FrameOfShape |
| src/chemcurry/workflow.py:607 | `save_as_txt` writes "PASSED" for failed molecules and the empty issue for passing ones | a failed molecule with issue "contained mixture": its row says "PASSED" | the issue text for failed molecules, "PASSED" otherwise | not executed; high (docstring) | ChemcurryWorkflow.TxtRowAsWrittenHidesIssue | ChemcurryWorkflow.JsonAgreesWithFrame |
| src/mml_chemical_curate/chemical.py:123-125 | `flag_issue` acts only when its argument is `None` | `flag_issue(CurationIssue.wrong_mw)` on a passing chemical: it stays passing | the first issue is recorded and the chemical fails | not executed; high (docstring) | MmlChemical.FlagIssueAsWrittenIgnoresIssue | MmlChemical.FlagIssueWriteOnce |
| src/mml_chemical_curate/chemical.py:76-80 | `update_mol` never refreshes `_mol_hash` | two updates to the same new structure: two notes | the cache follows the stored structure, so the second update is silent | not executed; medium | MmlChemical.UpdateMolAsWrittenRepeats | MmlChemical.UpdateMolEffect |
| src/mml_chemical_curate/steps/label.py:45 | `CurateFillMissingLabel` reads `self.issue`, which it never sets | two passing chemicals with missing labels: the first is filled, `AttributeError` is raised, the second stays missing | every missing label filled | not executed; high | MmlLabelSteps.FillAsWrittenStopsAtFirst | MmlLabelSteps.FillMissingFillsMissing |
| src/mml_chemical_curate/steps/mw.py:41-42 | `CurateMW._func` iterates over its argument, but the inherited `SingleCurationStep.__call__` (base.py:224-226) passes it one chemical | `CurateMW()([c])` for any chemical `c`: `TypeError`, and a passing chemical of weight 0.5 is not flagged | the loop runs once over the list, flagging weights outside the band | not executed; high | MmlMolecularWeight.OutOfBandNotFlaggedAsWritten | MmlMolecularWeight.RunMw |
| src/mml_chemical_curate/steps/base.py:69-70 | `PostInitMeta` calls `__post_init__(instance, *args, **kwargs)`, but `__post_init__` takes only `self` | `CurateMW(2, 100)`: `__init__` accepts the band, then `TypeError` | the checks run with no arguments, so every valid band builds | not executed; high | MmlMolecularWeight.ExplicitBoundsRefused | MmlMolecularWeight.NewCurateMW |
