/**
 * The label curation steps of `mml_chemical_curate`: `CurateMissingLabel`,
 * `CurateFillMissingLabel`, `CurateNumericalLabel`, `CurateFilterLabel` and
 * `CurateBinarizeLabel`.
 *
 * Each `_func` walks the list of chemicals in order, skips failed ones and
 * changes the others through `flag_issue` and `update_label`. `LabelVisit`
 * says what a step does to one record, `Sweep` what its loop does to a list
 * (a raised exception ends the loop), and `RunLabelStep` is that loop over
 * `Chemical` objects.
 */
module MmlLabelSteps {
  import opened Wrappers
  import opened Flags
  import opened MmlChemical
  import opened MmlStepBase

  datatype LabelStep =
    | CurateMissingLabel
    | CurateFillMissingLabel(fillValue: Label)
    | CurateNumericalLabel
    | CurateFilterLabel(filterFunc: Label -> bool)
    | CurateBinarizeLabel(threshold: real, greater: bool)

  /** The attributes each constructor sets. */
  function Info(step: LabelStep): StepInfo {
    match step
    case CurateMissingLabel => StepInfo("CurateMissingLabel", Some(MissingLabel), None, {}, 0)
    case CurateFillMissingLabel(_) => StepInfo("CurateFillMissingLabel", None, Some(FilledMissingLabel), {}, 0)
    case CurateNumericalLabel => StepInfo("CurateNumericalLabel", Some(NonNumericLabel), Some(LabelMadeNumeric), {}, 5)
    case CurateFilterLabel(_) => StepInfo("CurateFilterLabel", Some(FailedCustomLabelFilter), None, {}, 6)
    case CurateBinarizeLabel(_, _) => StepInfo("CurateBinarizeLabel", None, Some(BinarizedLabel), {"CurateNumericalLabel"}, 6)
  }

  /**
   * Every label step passes the post-construction checks; the binarizing step
   * alone declares a dependency, on the numeric conversion step, which is
   * present exactly when a step of that class is in the list.
   */
  lemma LabelStepsAreValid(step: LabelStep, others: seq<LabelStep>)
    ensures PostInitOf(Info(step)) == Pass
    ensures Info(step).rank >= 0
    ensures step.CurateBinarizeLabel? ==> Info(step).dependency == {"CurateNumericalLabel"} && Info(step).rank == 6
    ensures !step.CurateBinarizeLabel? ==> Info(step).dependency == {}
    ensures var infos := seq(|others|, i requires 0 <= i < |others| => Info(others[i]));
      step.CurateBinarizeLabel? ==>
        (MissingDependency(Info(step), infos) == {} <==> exists i :: 0 <= i < |others| && others[i].CurateNumericalLabel?)
  {
    PostInitOfAccepts(Info(step));
    var infos := seq(|others|, i requires 0 <= i < |others| => Info(others[i]));
    if step.CurateBinarizeLabel? {
      if exists i :: 0 <= i < |others| && others[i].CurateNumericalLabel? {
        var i :| 0 <= i < |others| && others[i].CurateNumericalLabel?;
        assert infos[i].className == "CurateNumericalLabel";
        assert forall x :: x in MissingDependency(Info(step), infos) ==> x == "CurateNumericalLabel";
      }
      if MissingDependency(Info(step), infos) == {} {
        assert "CurateNumericalLabel" !in MissingDependency(Info(step), infos);
        var i :| 0 <= i < |infos| && infos[i].className == "CurateNumericalLabel";
        assert others[i].CurateNumericalLabel?;
      }
    }
  }

  /** Two label steps are of the same class. */
  predicate SameClass(s: LabelStep, t: LabelStep) {
    || (s.CurateMissingLabel? && t.CurateMissingLabel?)
    || (s.CurateFillMissingLabel? && t.CurateFillMissingLabel?)
    || (s.CurateNumericalLabel? && t.CurateNumericalLabel?)
    || (s.CurateFilterLabel? && t.CurateFilterLabel?)
    || (s.CurateBinarizeLabel? && t.CurateBinarizeLabel?)
  }

  /**
   * `str()` and `repr()` of a label step name its class and nothing else:
   * two steps print the same exactly when they are of the same class,
   * whatever their parameters, so a dependency on a class name is met by any
   * step of that class.
   */
  lemma LabelStepNames(s: LabelStep, t: LabelStep)
    ensures Repr(Info(s)) == Str(Info(s))
    ensures Str(Info(s)) == Str(Info(t)) <==> SameClass(s, t)
    ensures Str(Info(s)) == "CurateNumericalLabel" <==> s.CurateNumericalLabel?
  {
    // The five class names have five different lengths.
    assert |Str(Info(s))| == |Str(Info(t))| <==> SameClass(s, t);
  }

  /** The text of a missing value in the constructor's message. */
  function MissingText(l: Label): string {
    if l.NoLabel? then "None" else "nan"
  }

  /** `CurateFillMissingLabel(fill_value)`: a fill value that is itself missing is refused. */
  function NewFillMissingLabel(fillValue: Label): (r: Result<LabelStep, string>)
    ensures r.Failure? <==> IsMissing(fillValue)
    ensures r.Success? ==> r.value == CurateFillMissingLabel(fillValue)
  {
    if IsMissing(fillValue) then
      Failure("missing fill value cannot also be a missing value: '" + MissingText(fillValue) + "'")
    else Success(CurateFillMissingLabel(fillValue))
  }

  /** 2 ** 53: every integer of at most this magnitude is a double exactly. */
  const MantissaLimit: nat := 9007199254740992

  /** 2 ** 1024: a magnitude that rounds to this or beyond does not fit in a double. */
  const FloatOverflowLimit: nat := 179769313486231590772930519078902473361797697894230657273430081157732675805500963132708477322407536021120113879871393357658789768814416622492847430639474124377767893424865485276302219601246094119453082952085005768838150682342462881473913110540827237163350510684586298239947245938479716304835356329624224137216

  /**
   * The spacing of doubles around the magnitude `n`: 1 below 2 ** 53, and twice
   * as wide for every further binary digit of `n`, so that `n` lies between
   * 2 ** 52 and 2 ** 53 spacings.
   */
  function Spacing(n: nat): (s: nat)
    ensures s >= 1
    ensures n < MantissaLimit * s
    ensures s > 1 ==> MantissaLimit * s <= 2 * n
    decreases n
  {
    if n < MantissaLimit then 1 else 2 * Spacing(n / 2)
  }

  /** Euclidean division of `n` by `s`. */
  lemma DivFacts(n: nat, s: nat)
    requires s >= 1
    ensures n == (n / s) * s + n % s && 0 <= n % s < s
  {
  }

  /** A quotient whose multiple stays below `MantissaLimit * s` is itself below `MantissaLimit`. */
  lemma QuotientBelowLimit(q: nat, s: nat, n: nat)
    requires s >= 1 && q * s <= n < MantissaLimit * s
    ensures q < MantissaLimit
  {
  }

  /** Rounding `n == q * s + rest` up or down by the half-way test, ties to an even quotient. */
  lemma RoundingChoice(n: nat, s: nat, q: nat, rest: nat, up: bool)
    requires s >= 1 && n == q * s + rest && rest < s
    requires up <==> 2 * rest > s || (2 * rest == s && q % 2 == 1)
    ensures var k := if up then q + 1 else q; var m := k * s;
      && 2 * (m - n) <= s && 2 * (n - m) <= s
      && (2 * (m - n) == s || 2 * (n - m) == s ==> k % 2 == 0)
  {
    if up {
      assert (q + 1) * s == q * s + s;
    }
  }

  /**
   * The magnitude `n` rounded as CPython's `float(int)` rounds it, given as a
   * multiple `k` of its spacing: at most 2 ** 53 spacings, within half a
   * spacing of `n`, and an even multiple when `n` lies half-way.
   */
  function RoundedMantissa(n: nat): (k: nat)
    ensures k <= MantissaLimit
    ensures var s := Spacing(n); var m := k * s;
      && 2 * (m - n) <= s && 2 * (n - m) <= s
      && (2 * (m - n) == s || 2 * (n - m) == s ==> k % 2 == 0)
  {
    var s := Spacing(n);
    var q := n / s;
    var rest := n % s;
    var up := 2 * rest > s || (2 * rest == s && q % 2 == 1);
    DivFacts(n, s);
    QuotientBelowLimit(q, s, n);
    RoundingChoice(n, s, q, rest, up);
    if up then q + 1 else q
  }

  /** The double nearest to the magnitude `n`. */
  function RoundToDouble(n: nat): nat {
    RoundedMantissa(n) * Spacing(n)
  }

  /** Integers up to 2 ** 53 in magnitude are not rounded; one past it rounds back to it, three past it up to four past it. */
  lemma RoundToDoubleExact(n: nat)
    ensures n <= MantissaLimit ==> RoundToDouble(n) == n
    ensures RoundToDouble(MantissaLimit + 1) == MantissaLimit
    ensures RoundToDouble(MantissaLimit + 3) == MantissaLimit + 4
  {
    assert Spacing(MantissaLimit) == 2 * Spacing(MantissaLimit / 2) == 2;
    assert Spacing(MantissaLimit + 1) == 2 * Spacing((MantissaLimit + 1) / 2) == 2;
    assert Spacing(MantissaLimit + 3) == 2 * Spacing((MantissaLimit + 3) / 2) == 2;
  }

  /** `float(i)` for a Python `int`: the rounded value with its sign, or `None` for the `OverflowError`. */
  function IntToFloat(i: int): (r: Option<real>)
    ensures -(MantissaLimit as int) <= i <= MantissaLimit ==> r == Some(i as real)
    ensures r.Some? ==> var n := if i < 0 then -i else i;
      && 2.0 * (if r.value < i as real then i as real - r.value else r.value - i as real) <= Spacing(n) as real
      && (i >= 0 ==> r.value >= 0.0) && (i <= 0 ==> r.value <= 0.0)
    ensures r.None? ==> i < -(MantissaLimit as int) || MantissaLimit < i
  {
    var n := if i < 0 then -i else i;
    var m := RoundToDouble(n);
    RoundToDoubleExact(n);
    if m >= FloatOverflowLimit then None
    else Some(if i < 0 then -(m as real) else m as real)
  }

  /** `float(label)`: a conversion, a `ValueError` (caught by the step), or a `TypeError` or `OverflowError` (not caught). */
  datatype Conversion =
    | Converted(value: Label, sameObject: bool)
    | NotNumeric
    | ConversionTypeError(message: string)
    | ConversionOverflow(message: string)

  /** `float(label)` raises an exception that `CurateNumericalLabel` does not catch. */
  predicate FloatRaises(l: Label) {
    l.NoLabel? || (l.IntLabel? && IntToFloat(l.i).None?)
  }

  /**
   * `float(label)`. A Python `float` (NaN included) is returned as the very same
   * object; an `int` gives a new float, rounded, or raises `OverflowError` when
   * too large; a string gives what its text parses to; `None` raises `TypeError`.
   */
  function ToFloat(l: Label): (r: Conversion)
    ensures r.Converted? ==> (r.value.FloatLabel? || r.value.NanLabel?) && (r.sameObject ==> r.value == l)
    ensures r.ConversionTypeError? <==> l.NoLabel?
    ensures r.ConversionOverflow? <==> l.IntLabel? && IntToFloat(l.i).None?
    ensures r.ConversionTypeError? || r.ConversionOverflow? <==> FloatRaises(l)
    ensures r.NotNumeric? <==> l.StrLabel? && l.parsed.None?
    ensures r.Converted? && l.FloatLabel? ==> r.value == l
    ensures r.Converted? && l.IntLabel? ==> r.value.FloatLabel? && IntToFloat(l.i) == Some(r.value.x)
    ensures r.Converted? && l.IntLabel? && -(MantissaLimit as int) <= l.i <= MantissaLimit ==> r.value == FloatLabel(l.i as real)
  {
    match l
    case NoLabel => ConversionTypeError("float() argument must be a string or a real number, not 'NoneType'")
    case IntLabel(i) =>
      var f := IntToFloat(i);
      if f.Some? then Converted(FloatLabel(f.value), false) else ConversionOverflow("int too large to convert to float")
    case FloatLabel(_) => Converted(l, true)
    case NanLabel => Converted(l, true)
    case StrLabel(_, parsed) => if parsed.Some? then Converted(FloatLabel(parsed.value), false) else NotNumeric
  }

  /** The Python type name of a label, as comparison errors report it. */
  function TypeName(l: Label): string {
    match l
    case NoLabel => "NoneType"
    case IntLabel(_) => "int"
    case FloatLabel(_) => "float"
    case NanLabel => "float"
    case StrLabel(_, _) => "str"
  }

  /**
   * `label > threshold` (or `label < threshold`): numbers compare by value, NaN
   * compares false, and a string or `None` raises `TypeError`.
   */
  function Compare(l: Label, threshold: real, greater: bool): (r: Result<bool, string>)
    ensures r.Failure? <==> l.NoLabel? || l.StrLabel?
    ensures r.Success? && IsNumber(l) ==> r.value == (if greater then NumberOf(l) > threshold else NumberOf(l) < threshold)
    ensures l.NanLabel? ==> r == Success(false)
  {
    if IsNumber(l) then Success(if greater then NumberOf(l) > threshold else NumberOf(l) < threshold)
    else if l.NanLabel? then Success(false)
    else Failure("'" + (if greater then ">" else "<") + "' not supported between instances of '"
                 + TypeName(l) + "' and 'float'")
  }

  /** The effect of a step on one record, and the exception it raised if any. */
  datatype LabelVisitResult = Visited(state: ChemState, raised: Option<string>)

  function LabelVisit(step: LabelStep, s: ChemState): LabelVisitResult {
    if s.failed then Visited(s, None)
    else
      match step
      case CurateMissingLabel =>
        Visited(if IsMissing(s.labelValue) then Flagged(s, MissingLabel) else s, None)
      case CurateFillMissingLabel(fill) =>
        Visited(if IsMissing(s.labelValue) then LabelUpdated(s, fill, FilledMissingLabel, false, false) else s, None)
      case CurateNumericalLabel => NumericalVisit(s)
      case CurateFilterLabel(f) =>
        Visited(if !f(s.labelValue) then Flagged(s, FailedCustomLabelFilter) else s, None)
      case CurateBinarizeLabel(t, greater) => BinarizeVisit(s, t, greater)
  }

  /** `update_label(float(label), note)`, with a `ValueError` caught as the `non_numeric_label` issue. */
  function NumericalVisit(s: ChemState): LabelVisitResult {
    match ToFloat(s.labelValue)
    case Converted(v, same) => Visited(LabelUpdated(s, v, LabelMadeNumeric, false, same), None)
    case NotNumeric => Visited(Flagged(s, NonNumericLabel), None)
    case ConversionTypeError(m) => Visited(s, Some(m))
    case ConversionOverflow(m) => Visited(s, Some(m))
  }

  /** `update_label(int(label > threshold), note, force=True)`, or `<` when `greater` is false. */
  function BinarizeVisit(s: ChemState, t: real, greater: bool): LabelVisitResult {
    match Compare(s.labelValue, t, greater)
    case Success(b) => Visited(LabelUpdated(s, IntLabel(if b then 1 else 0), BinarizedLabel, true, false), None)
    case Failure(m) => Visited(s, Some(m))
  }

  /** One record: a failed one is untouched, a raise leaves it as it was, and the invariant is kept. */
  lemma LabelVisitContract(step: LabelStep, s: ChemState)
    ensures s.failed ==> LabelVisit(step, s) == Visited(s, None)
    ensures LabelVisit(step, s).raised.Some? ==> LabelVisit(step, s).state == s
    ensures ChemInv(s) ==> ChemInv(LabelVisit(step, s).state)
    ensures LabelVisit(step, s).raised.Some? <==>
      !s.failed && ((step.CurateNumericalLabel? && FloatRaises(s.labelValue))
                    || (step.CurateBinarizeLabel? && (s.labelValue.NoLabel? || s.labelValue.StrLabel?)))
  {
  }

  /** What the loop has produced after `i` records, and the exception that ended it if any. */
  datatype LabelRun = LabelRun(states: seq<ChemState>, raised: Option<string>)

  /** The loop over the first `i` records: after a raise the remaining records are left as they were. */
  function SweepUpTo(step: LabelStep, ss: seq<ChemState>, i: nat): (r: LabelRun)
    requires i <= |ss|
    ensures |r.states| == i
    decreases i
  {
    if i == 0 then LabelRun([], None)
    else
      var prev := SweepUpTo(step, ss, i - 1);
      if prev.raised.Some? then LabelRun(prev.states + [ss[i - 1]], prev.raised)
      else
        var v := LabelVisit(step, ss[i - 1]);
        LabelRun(prev.states + [v.state], v.raised)
  }

  /** `step._func(chemicals)` on the states of the list. */
  function Sweep(step: LabelStep, ss: seq<ChemState>): (r: LabelRun)
    ensures |r.states| == |ss|
  {
    SweepUpTo(step, ss, |ss|)
  }

  /** Once a record raises, the records after it are left as they were. */
  lemma {:induction false} SweepAfterRaise(step: LabelStep, ss: seq<ChemState>, k: nat, i: nat)
    requires k <= i <= |ss|
    requires SweepUpTo(step, ss, k).raised.Some?
    ensures SweepUpTo(step, ss, i) == SweepUpTo(step, ss, k).(states := SweepUpTo(step, ss, k).states + ss[k..i])
    decreases i
  {
    if i == k {
      assert ss[k..i] == [];
      assert SweepUpTo(step, ss, k).states + [] == SweepUpTo(step, ss, k).states;
    } else {
      SweepAfterRaise(step, ss, k, i - 1);
      var base := SweepUpTo(step, ss, k);
      var prev := SweepUpTo(step, ss, i - 1);
      assert prev.raised == base.raised;
      assert SweepUpTo(step, ss, i) == LabelRun(prev.states + [ss[i - 1]], prev.raised);
      calc {
        prev.states + [ss[i - 1]];
        (base.states + ss[k..i - 1]) + [ss[i - 1]];
        { assert ss[k..i] == ss[k..i - 1] + [ss[i - 1]]; }
        base.states + ss[k..i];
      }
    }
  }

  /**
   * While no record raises, every record is its own visit and nothing is
   * raised: the records are independent of each other.
   */
  lemma {:induction false} SweepWithoutRaise(step: LabelStep, ss: seq<ChemState>, n: nat)
    requires n <= |ss|
    requires forall j :: 0 <= j < n ==> LabelVisit(step, ss[j]).raised.None?
    ensures SweepUpTo(step, ss, n).raised.None?
    ensures forall j :: 0 <= j < n ==> SweepUpTo(step, ss, n).states[j] == LabelVisit(step, ss[j]).state
    decreases n
  {
    if n > 0 {
      SweepWithoutRaise(step, ss, n - 1);
    }
  }

  /** Records that had failed are left untouched, whether or not the loop raised. */
  lemma {:induction false} SweepKeepsFailed(step: LabelStep, ss: seq<ChemState>, n: nat)
    requires n <= |ss|
    ensures forall j :: 0 <= j < n && ss[j].failed ==> SweepUpTo(step, ss, n).states[j] == ss[j]
    decreases n
  {
    if n > 0 {
      SweepKeepsFailed(step, ss, n - 1);
      LabelVisitContract(step, ss[n - 1]);
    }
  }

  /** The loop keeps the invariant of every record. */
  lemma {:induction false} SweepPreserves(step: LabelStep, ss: seq<ChemState>, n: nat)
    requires n <= |ss|
    requires forall j :: 0 <= j < |ss| ==> ChemInv(ss[j])
    ensures forall j :: 0 <= j < n ==> ChemInv(SweepUpTo(step, ss, n).states[j])
    decreases n
  {
    if n > 0 {
      SweepPreserves(step, ss, n - 1);
      LabelVisitContract(step, ss[n - 1]);
    }
  }

  /** `CurateMissingLabel` fails exactly the passing records whose label is missing, with `missing_label`. */
  lemma MissingLabelFlagsMissing(ss: seq<ChemState>)
    ensures Sweep(CurateMissingLabel, ss).raised.None?
    ensures forall j :: 0 <= j < |ss| ==>
      Sweep(CurateMissingLabel, ss).states[j] ==
        (if !ss[j].failed && IsMissing(ss[j].labelValue) then Flagged(ss[j], MissingLabel) else ss[j])
  {
    SweepWithoutRaise(CurateMissingLabel, ss, |ss|);
  }

  /**
   * `CurateFillMissingLabel` (as corrected) gives every passing record with a
   * missing label the fill value and the `filled_missing_label` note, and
   * leaves present labels untouched.
   */
  lemma FillMissingFillsMissing(fill: Label, ss: seq<ChemState>)
    ensures Sweep(CurateFillMissingLabel(fill), ss).raised.None?
    ensures forall j :: 0 <= j < |ss| ==>
      Sweep(CurateFillMissingLabel(fill), ss).states[j] ==
        (if !ss[j].failed && IsMissing(ss[j].labelValue)
         then ss[j].(labelValue := fill, notes := ss[j].notes + [FilledMissingLabel],
                     labelHistory := if ss[j].trackHistory then ss[j].labelHistory + [ss[j].labelValue]
                                     else ss[j].labelHistory)
         else ss[j])
  {
    SweepWithoutRaise(CurateFillMissingLabel(fill), ss, |ss|);
  }

  /** `CurateFilterLabel` fails exactly the passing records whose label the filter rejects. */
  lemma FilterLabelFlagsRejected(f: Label -> bool, ss: seq<ChemState>)
    ensures Sweep(CurateFilterLabel(f), ss).raised.None?
    ensures forall j :: 0 <= j < |ss| ==>
      Sweep(CurateFilterLabel(f), ss).states[j] ==
        (if !ss[j].failed && !f(ss[j].labelValue) then Flagged(ss[j], FailedCustomLabelFilter) else ss[j])
  {
    SweepWithoutRaise(CurateFilterLabel(f), ss, |ss|);
  }

  /**
   * `CurateNumericalLabel`, on records none of whose passing ones lacks a
   * label: a label that does not parse fails the record with
   * `non_numeric_label`; any other becomes its float value, with the
   * `label_made_numeric` note unless it was that very float already (NaN,
   * which is unequal to itself, gets the note).
   */
  lemma NumericalLabelConverts(ss: seq<ChemState>)
    requires forall j :: 0 <= j < |ss| && !ss[j].failed ==> !FloatRaises(ss[j].labelValue)
    ensures Sweep(CurateNumericalLabel, ss).raised.None?
    ensures forall j :: 0 <= j < |ss| && !ss[j].failed ==>
      var t := Sweep(CurateNumericalLabel, ss).states[j];
      var l := ss[j].labelValue;
      && (l.StrLabel? && l.parsed.None? ==> t == Flagged(ss[j], NonNumericLabel))
      && (l.IntLabel? ==> t.labelValue.FloatLabel? && IntToFloat(l.i) == Some(t.labelValue.x))
      && (l.IntLabel? && -(MantissaLimit as int) <= l.i <= MantissaLimit ==> t.labelValue == FloatLabel(l.i as real))
      && (l.StrLabel? && l.parsed.Some? ==> t.labelValue == FloatLabel(l.parsed.value))
      && (l.FloatLabel? ==> t == ss[j])
      && (!l.FloatLabel? && !(l.StrLabel? && l.parsed.None?) ==> t.notes == ss[j].notes + [LabelMadeNumeric])
  {
    forall j | 0 <= j < |ss|
      ensures LabelVisit(CurateNumericalLabel, ss[j]).raised.None?
    {
      LabelVisitContract(CurateNumericalLabel, ss[j]);
    }
    SweepWithoutRaise(CurateNumericalLabel, ss, |ss|);
  }

  /**
   * A record without a label, or with an `int` label too large for a double,
   * makes `CurateNumericalLabel` raise, and the records after it are not visited.
   */
  lemma NumericalLabelRaises(ss: seq<ChemState>, k: nat)
    requires k < |ss| && !ss[k].failed && FloatRaises(ss[k].labelValue)
    requires forall j :: 0 <= j < k && !ss[j].failed ==> !FloatRaises(ss[j].labelValue)
    ensures Sweep(CurateNumericalLabel, ss).raised.Some?
    ensures Sweep(CurateNumericalLabel, ss).states[k + 1..] == ss[k + 1..]
  {
    forall j | 0 <= j < k
      ensures LabelVisit(CurateNumericalLabel, ss[j]).raised.None?
    {
      LabelVisitContract(CurateNumericalLabel, ss[j]);
    }
    SweepWithoutRaise(CurateNumericalLabel, ss, k);
    var base := SweepUpTo(CurateNumericalLabel, ss, k + 1);
    assert base.raised.Some?;
    SweepAfterRaise(CurateNumericalLabel, ss, k + 1, |ss|);
    assert Sweep(CurateNumericalLabel, ss).states == base.states + ss[k + 1..];
    assert (base.states + ss[k + 1..])[k + 1..] == ss[k + 1..];
  }

  /**
   * `CurateBinarizeLabel`, on records whose passing ones all carry a number or
   * NaN: the label becomes 1 exactly when it is strictly above (or, with
   * `greater` false, strictly below) the threshold and 0 otherwise, and since
   * the update is forced every passing record gets the `binarized_label` note.
   */
  lemma BinarizeLabelClasses(t: real, greater: bool, ss: seq<ChemState>)
    requires forall j :: 0 <= j < |ss| && !ss[j].failed ==> IsNumber(ss[j].labelValue) || ss[j].labelValue.NanLabel?
    ensures Sweep(CurateBinarizeLabel(t, greater), ss).raised.None?
    ensures forall j :: 0 <= j < |ss| && !ss[j].failed ==>
      var r := Sweep(CurateBinarizeLabel(t, greater), ss).states[j];
      var l := ss[j].labelValue;
      && r.labelValue == IntLabel(if IsNumber(l) && (if greater then NumberOf(l) > t else NumberOf(l) < t) then 1 else 0)
      && r.notes == ss[j].notes + [BinarizedLabel]
      && r.failed == ss[j].failed && r.issue == ss[j].issue
  {
    forall j | 0 <= j < |ss|
      ensures LabelVisit(CurateBinarizeLabel(t, greater), ss[j]).raised.None?
    {
      LabelVisitContract(CurateBinarizeLabel(t, greater), ss[j]);
    }
    SweepWithoutRaise(CurateBinarizeLabel(t, greater), ss, |ss|);
  }

  // ---------------------------------------------------------------------------
  // CurateFillMissingLabel._func as written
  // ---------------------------------------------------------------------------

  const NoIssueAttributeError := "'CurateFillMissingLabel' object has no attribute 'issue'"

  /**
   * The loop of `CurateFillMissingLabel._func` as written: after filling a
   * label it reads `self.issue`, which the class never sets, so the first
   * fill raises `AttributeError` and ends the loop.
   */
  function FillAsWritten(fill: Label, ss: seq<ChemState>): (r: LabelRun)
    ensures |r.states| == |ss|
    decreases |ss|
  {
    if |ss| == 0 then LabelRun([], None)
    else
      var n := |ss| - 1;
      var prev := FillAsWritten(fill, ss[..n]);
      if prev.raised.Some? || ss[n].failed || !IsMissing(ss[n].labelValue) then
        LabelRun(prev.states + [ss[n]], prev.raised)
      else
        LabelRun(prev.states + [LabelUpdated(ss[n], fill, FilledMissingLabel, false, false)], Some(NoIssueAttributeError))
  }

  /**
   * As written, two passing records with missing labels: the first is filled
   * and the step raises, so the second keeps its missing label.
   */
  lemma FillAsWrittenStopsAtFirst(fill: Label, a: ChemState, b: ChemState)
    requires !a.failed && !b.failed && IsMissing(a.labelValue) && IsMissing(b.labelValue)
    ensures FillAsWritten(fill, [a, b]).raised == Some(NoIssueAttributeError)
    ensures FillAsWritten(fill, [a, b]).states[1] == b && IsMissing(FillAsWritten(fill, [a, b]).states[1].labelValue)
    ensures Sweep(CurateFillMissingLabel(fill), [a, b]).raised.None?
  {
    assert [a, b][..1] == [a];
    assert [a][..0] == [];
    assert FillAsWritten(fill, [a]).raised == Some(NoIssueAttributeError);
    FillMissingFillsMissing(fill, [a, b]);
  }

  // ---------------------------------------------------------------------------
  // The loop over Chemical objects
  // ---------------------------------------------------------------------------

  /** The body of the loop for one chemical, through its own operations. */
  method VisitChemical(step: LabelStep, c: Chemical) returns (raised: Option<string>)
    modifies c
    ensures LabelVisit(step, old(c.State())) == Visited(c.State(), raised)
  {
    raised := None;
    if c.failedCuration {
      return;
    }
    match step {
      case CurateMissingLabel =>
        if IsMissing(c.labelValue) {
          c.FlagIssue(MissingLabel);
        }
      case CurateFillMissingLabel(fill) =>
        if IsMissing(c.labelValue) {
          c.UpdateLabel(fill, FilledMissingLabel, false, false);
        }
      case CurateNumericalLabel =>
        var conversion := ToFloat(c.labelValue);
        match conversion {
          case Converted(v, same) => c.UpdateLabel(v, LabelMadeNumeric, false, same);
          case NotNumeric => c.FlagIssue(NonNumericLabel);
          case ConversionTypeError(m) => raised := Some(m);
          case ConversionOverflow(m) => raised := Some(m);
        }
      case CurateFilterLabel(f) =>
        if !f(c.labelValue) {
          c.FlagIssue(FailedCustomLabelFilter);
        }
      case CurateBinarizeLabel(t, greater) =>
        var above := Compare(c.labelValue, t, greater);
        match above {
          case Success(b) => c.UpdateLabel(IntLabel(if b then 1 else 0), BinarizedLabel, true, false);
          case Failure(m) => raised := Some(m);
        }
    }
  }

  /** The visit of `cs[i]`, which leaves every other chemical of the list as it was. */
  method VisitChemicalAt(step: LabelStep, cs: seq<Chemical>, i: nat) returns (v: LabelVisitResult)
    requires DistinctChems(cs) && i < |cs|
    modifies cs[i]
    ensures v == LabelVisit(step, old(ChemStates(cs))[i])
    ensures ChemStates(cs) == old(ChemStates(cs))[i := v.state]
  {
    ghost var before := ChemStates(cs);
    forall j | 0 <= j < |cs|
      ensures before[j] == cs[j].State()
    {
      ChemStatesIndex(cs, j);
    }
    var raised := VisitChemical(step, cs[i]);
    v := Visited(cs[i].State(), raised);
    forall j | 0 <= j < |cs|
      ensures ChemStates(cs)[j] == before[i := v.state][j]
    {
      ChemStatesIndex(cs, j);
      if j != i {
        assert cs[j] != cs[i];
      }
    }
  }

  /** One loop step: the list with record `i` replaced. */
  lemma ReplaceNext(ss: seq<ChemState>, i: nat, done: seq<ChemState>, cur: seq<ChemState>, x: ChemState)
    requires i < |ss| && |done| == i && cur == done + ss[i..]
    ensures cur[i := x] == done + [x] + ss[i + 1..]
  {
    var next := done + [x] + ss[i + 1..];
    assert |cur[i := x]| == |next|;
    forall j | 0 <= j < |next|
      ensures cur[i := x][j] == next[j]
    {
      if j > i {
        assert cur[j] == ss[i..][j - i] == ss[j];
      }
    }
  }

  /** The next record of the loop, one record further along `SweepUpTo`. */
  method VisitNextChemical(step: LabelStep, cs: seq<Chemical>, i: nat, ghost s0: seq<ChemState>,
                           ghost done: seq<ChemState>) returns (v: LabelVisitResult)
    requires DistinctChems(cs) && i < |cs| == |s0| && |done| == i
    requires SweepUpTo(step, s0, i) == LabelRun(done, None)
    requires ChemStates(cs) == done + s0[i..]
    modifies cs[i]
    ensures ChemStates(cs) == done + [v.state] + s0[i + 1..]
    ensures SweepUpTo(step, s0, i + 1) == LabelRun(done + [v.state], v.raised)
  {
    ghost var cur := ChemStates(cs);
    assert cur[i] == s0[i];
    v := VisitChemicalAt(step, cs, i);
    ReplaceNext(s0, i, done, cur, v.state);
  }

  /** A loop that stopped after `k` records, at the end or at a raise, has produced the whole `Sweep`. */
  lemma FinishSweep(step: LabelStep, ss: seq<ChemState>, k: nat, done: seq<ChemState>, raised: Option<string>)
    requires k <= |ss| && (raised.Some? || k == |ss|)
    requires SweepUpTo(step, ss, k) == LabelRun(done, raised)
    ensures Sweep(step, ss) == LabelRun(done + ss[k..], raised)
  {
    if k == |ss| {
      assert done + ss[k..] == done;
    } else {
      SweepAfterRaise(step, ss, k, |ss|);
    }
  }

  /**
   * `step._func(chemicals)`: the chemicals are visited in list order until the
   * end of the list or the first raised exception, which the call returns.
   */
  method RunLabelStep(step: LabelStep, cs: seq<Chemical>) returns (raised: Option<string>)
    requires DistinctChems(cs)
    modifies cs
    ensures ChemStates(cs) == Sweep(step, old(ChemStates(cs))).states
    ensures raised == Sweep(step, old(ChemStates(cs))).raised
  {
    ghost var s0 := ChemStates(cs);
    ghost var seen: seq<ChemState> := [];
    var k := 0;
    var err: Option<string> := None;
    while k < |cs| && err.None?
      invariant 0 <= k <= |cs| == |s0| && |seen| == k
      invariant SweepUpTo(step, s0, k) == LabelRun(seen, err)
      invariant err.Some? ==> 0 < k
      invariant ChemStates(cs) == seen + s0[k..]
    {
      var v := VisitNextChemical(step, cs, k, s0, seen);
      seen := seen + [v.state];
      err := v.raised;
      k := k + 1;
    }
    FinishSweep(step, s0, k, seen, err);
    raised := err;
  }
}
