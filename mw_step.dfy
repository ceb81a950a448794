/**
 * `CurateMW`: the molecular-weight band of `mml_chemical_curate`. The
 * constructor checks the bounds; the step fails every passing chemical whose
 * exact weight lies outside the inclusive band `[min_mw, max_mw]`.
 *
 * The weight is the `exactWeight` field of the structure, standing for
 * RDKit's `CalcExactMolWt`.
 */
module MmlMolecularWeight {
  import opened Wrappers
  import opened Structure
  import opened Flags
  import opened MmlChemical
  import opened MmlStepBase

  /** An upper bound: a number or `float("inf")`. */
  datatype MaxBound = Finite(value: real) | Infinity

  predicate AtMost(x: real, b: MaxBound) {
    b.Infinity? || x <= b.value
  }

  datatype MwStep = MwStep(minMw: real, maxMw: MaxBound)

  /**
   * Why construction fails: one of the two `ValueError`s of `__init__`, or the
   * `TypeError` of calling the argument-less `__post_init__` with the
   * constructor's arguments.
   */
  datatype MwError = MinNotPositive(minMw: real) | MinAboveMax(minMw: real, maxMw: MaxBound) | PostInitArguments(count: nat)

  /** `CurateMW(min_mw, max_mw)` as intended: `min_mw` must be positive and at most `max_mw`. */
  function NewCurateMW(minMw: real, maxMw: MaxBound): (r: Result<MwStep, MwError>)
    ensures r.Success? <==> 0.0 < minMw && AtMost(minMw, maxMw)
    ensures r.Success? ==> r.value == MwStep(minMw, maxMw)
    ensures minMw <= 0.0 ==> r == Failure(MinNotPositive(minMw))
    ensures 0.0 < minMw && !AtMost(minMw, maxMw) ==> r == Failure(MinAboveMax(minMw, maxMw))
  {
    if minMw <= 0.0 then Failure(MinNotPositive(minMw))
    else if !AtMost(minMw, maxMw) then Failure(MinAboveMax(minMw, maxMw))
    else Success(MwStep(minMw, maxMw))
  }

  /** `CurateMW()`: the defaults, weight 1 and no upper bound. */
  function DefaultCurateMW(): (r: Result<MwStep, MwError>)
    ensures r == Success(MwStep(1.0, Infinity))
  {
    NewCurateMW(1.0, Infinity)
  }

  /** How many of the two arguments a call passes explicitly. */
  function Passed(minArg: Option<real>, maxArg: Option<MaxBound>): nat {
    (if minArg.Some? then 1 else 0) + (if maxArg.Some? then 1 else 0)
  }

  /**
   * `CurateMW(...)` as written, with `None` for an argument left to its
   * default. `__init__` runs its two checks first; then `PostInitMeta` hands
   * the same arguments to `__post_init__(self)`, which takes none, so any
   * explicit argument raises `TypeError` and only `CurateMW()` builds.
   */
  function CurateMWAsWritten(minArg: Option<real>, maxArg: Option<MaxBound>): (r: Result<MwStep, MwError>)
    ensures r.Success? <==> minArg.None? && maxArg.None?
    ensures r.Success? ==> r.value == MwStep(1.0, Infinity)
    ensures var intended := NewCurateMW(if minArg.Some? then minArg.value else 1.0,
                                        if maxArg.Some? then maxArg.value else Infinity);
      && (intended.Failure? ==> r == intended)
      && (intended.Success? && Passed(minArg, maxArg) > 0 ==> r == Failure(PostInitArguments(Passed(minArg, maxArg))))
  {
    var minMw := if minArg.Some? then minArg.value else 1.0;
    var maxMw := if maxArg.Some? then maxArg.value else Infinity;
    match NewCurateMW(minMw, maxMw)
    case Failure(e) => Failure(e)
    case Success(step) =>
      if Passed(minArg, maxArg) > 0 then Failure(PostInitArguments(Passed(minArg, maxArg))) else Success(step)
  }

  /** A band the intended constructor accepts is refused as written when its bounds are passed. */
  lemma ExplicitBoundsRefused()
    ensures NewCurateMW(2.0, Finite(100.0)) == Success(MwStep(2.0, Finite(100.0)))
    ensures CurateMWAsWritten(Some(2.0), Some(Finite(100.0))) == Failure(PostInitArguments(2))
    ensures CurateMWAsWritten(Some(2.0), None) == Failure(PostInitArguments(1))
    ensures CurateMWAsWritten(None, None) == DefaultCurateMW()
  {
  }

  /** The attributes the constructor sets: rank 4, the `wrong_mw` issue and no note. */
  function MwInfo(): StepInfo {
    StepInfo("CurateMW", Some(WrongMw), None, {}, 4)
  }

  lemma MwInfoIsValid()
    ensures PostInitOf(MwInfo()) == Pass
    ensures MwInfo().note.None? && MwInfo().issue == Some(WrongMw) && MwInfo().rank == 4
  {
    PostInitOfAccepts(MwInfo());
  }

  predicate InBand(step: MwStep, w: real) {
    step.minMw <= w && AtMost(w, step.maxMw)
  }

  /** The loop body on one record. */
  function MwVisit(step: MwStep, s: ChemState): ChemState {
    if !s.failed && !InBand(step, s.mol.exactWeight) then Flagged(s, WrongMw) else s
  }

  /** `_func(chemicals)` on the states of the list: the records are independent. */
  function MwSweep(step: MwStep, ss: seq<ChemState>): (r: seq<ChemState>)
    ensures |r| == |ss|
  {
    seq(|ss|, i requires 0 <= i < |ss| => MwVisit(step, ss[i]))
  }

  /**
   * A record fails with `wrong_mw` exactly when it was passing and its weight
   * lies outside the band; records that had failed already are untouched and
   * keep their first issue; the invariant of every record is kept.
   */
  lemma MwSweepFlagsOutOfBand(step: MwStep, ss: seq<ChemState>, i: nat)
    requires i < |ss|
    ensures ss[i].failed ==> MwSweep(step, ss)[i] == ss[i]
    ensures !ss[i].failed && InBand(step, ss[i].mol.exactWeight) ==> MwSweep(step, ss)[i] == ss[i]
    ensures ChemInv(ss[i]) ==>
      var r := MwSweep(step, ss)[i];
      && ChemInv(r)
      && (r != ss[i] <==> !ss[i].failed && !InBand(step, ss[i].mol.exactWeight))
      && (r != ss[i] ==> r == ss[i].(issue := Some(WrongMw), failed := true))
  {
    if ChemInv(ss[i]) {
      FlagIssueWriteOnce(ss[i], WrongMw, WrongMw);
    }
  }

  /** With the default bounds, what fails is exactly what weighs less than 1. */
  lemma DefaultBandIsAtLeastOne(w: real)
    ensures InBand(MwStep(1.0, Infinity), w) <==> 1.0 <= w
  {
  }

  /** Running the step twice changes nothing more than running it once. */
  lemma MwSweepIdempotent(step: MwStep, ss: seq<ChemState>)
    ensures MwSweep(step, MwSweep(step, ss)) == MwSweep(step, ss)
  {
    var once := MwSweep(step, ss);
    forall i | 0 <= i < |ss|
      ensures MwVisit(step, once[i]) == once[i]
    {
    }
  }

  /** One loop step, through the chemical's own `flag_issue`. */
  method MwVisitChemical(step: MwStep, c: Chemical)
    modifies c
    ensures c.State() == MwVisit(step, old(c.State()))
  {
    if c.failedCuration {
      return;
    }
    if !InBand(step, c.mol.exactWeight) {
      c.FlagIssue(WrongMw);
    }
  }

  /** `CurateMW._func(chemicals)`: every chemical of the list visited in order. */
  method RunMw(step: MwStep, cs: seq<Chemical>)
    requires DistinctChems(cs)
    modifies cs
    ensures ChemStates(cs) == MwSweep(step, old(ChemStates(cs)))
  {
    ghost var s0 := ChemStates(cs);
    forall j | 0 <= j < |cs|
      ensures cs[j].State() == s0[j]
    {
      ChemStatesIndex(cs, j);
    }
    for k := 0 to |cs|
      invariant forall j :: 0 <= j < k ==> cs[j].State() == MwVisit(step, s0[j])
      invariant forall j :: k <= j < |cs| ==> cs[j].State() == s0[j]
    {
      MwVisitChemical(step, cs[k]);
      assert forall j :: 0 <= j < |cs| && j != k ==> cs[j] != cs[k];
    }
    forall j | 0 <= j < |cs|
      ensures ChemStates(cs)[j] == MwSweep(step, s0)[j]
    {
      ChemStatesIndex(cs, j);
    }
  }

  /** The `TypeError` that `for mol in molecules` raises when `molecules` is a single `Chemical`. */
  const NotIterableError := "'Chemical' object is not iterable"

  /** What a call of the step did to the list, and the exception it raised if any. */
  datatype MwCall = MwCall(states: seq<ChemState>, raised: Option<string>)

  /**
   * `CurateMW()(chemicals)` as written: the inherited `SingleCurationStep.__call__`
   * hands `_func` one chemical, and `_func` iterates over its argument, so the
   * first chemical raises before any weight is checked and no chemical changes.
   */
  function MwCallAsWritten(step: MwStep, ss: seq<ChemState>): (r: MwCall)
    ensures r.states == ss
    ensures r.raised.Some? <==> |ss| > 0
    ensures r.raised.Some? ==> r.raised.value == NotIterableError
  {
    if |ss| == 0 then MwCall(ss, None) else MwCall(ss, Some(NotIterableError))
  }

  /**
   * A passing chemical outside the band is flagged `wrong_mw` by the intended
   * sweep, while the call as written raises `TypeError` and leaves it passing.
   */
  lemma OutOfBandNotFlaggedAsWritten(step: MwStep, s: ChemState)
    requires ChemInv(s) && !s.failed && !InBand(step, s.mol.exactWeight)
    ensures MwSweep(step, [s])[0].failed && MwSweep(step, [s])[0].issue == Some(WrongMw)
    ensures MwCallAsWritten(step, [s]) == MwCall([s], Some(NotIterableError))
    ensures !MwCallAsWritten(step, [s]).states[0].failed
  {
    MwSweepFlagsOutOfBand(step, [s], 0);
  }
}
