/**
 * The step framework of `mml_chemical_curate`: the boost/rdkit error
 * classifier, the checks run after a step is constructed, the rendering of a
 * step as its class name, the missing-dependency query, the loops of the two
 * step kinds and the `GroupBy` partitioning.
 */
module MmlStepBase {
  import opened Wrappers
  import opened Flags
  import Text

  // ---------------------------------------------------------------------------
  // check_for_boost_rdkit_error
  // ---------------------------------------------------------------------------

  /** `check_for_boost_rdkit_error(message)`: both words occur, in any letter case. */
  function CheckForBoostRdkitError(message: string): (r: bool)
    ensures r <==> Text.IsSubstring("boost", Text.Lower(message)) && Text.IsSubstring("rdkit", Text.Lower(message))
  {
    var lowered := Text.Lower(message);
    Text.Contains(lowered, "boost") && Text.Contains(lowered, "rdkit")
  }

  lemma LowerIdempotent(s: string)
    ensures Text.Lower(Text.Lower(s)) == Text.Lower(s)
  {
    assert forall i :: 0 <= i < |s| ==> Text.LowerChar(Text.LowerChar(s[i])) == Text.LowerChar(s[i]);
  }

  /** The classification ignores letter case: lower-casing the message first changes nothing. */
  lemma BoostCheckIgnoresCase(message: string)
    ensures CheckForBoostRdkitError(Text.Lower(message)) == CheckForBoostRdkitError(message)
  {
    LowerIdempotent(message);
  }

  // ---------------------------------------------------------------------------
  // CurationStep.__post_init__
  // ---------------------------------------------------------------------------

  /** The value found in a step attribute; the kinds the checks tell apart. */
  datatype PyValue =
    | PyNone
    | PyInt(n: int)
    | PyIssue(issue: Issue)
    | PyNote(note: Note)
    | PyList
    | PyTuple
    | PyOther(typeName: string)

  /** `str(type(v))` for the values the checks report. */
  function TypeRepr(v: PyValue): string {
    match v
    case PyNone => "<class 'NoneType'>"
    case PyInt(_) => "<class 'int'>"
    case PyIssue(_) => "<enum 'CurationIssue'>"
    case PyNote(_) => "<enum 'CurationNote'>"
    case PyList => "<class 'list'>"
    case PyTuple => "<class 'tuple'>"
    case PyOther(t) => "<class '" + t + "'>"
  }

  /** The `CurationStepError`s of the checks. */
  datatype StepError =
    | RankMissing(className: string)
    | RankInvalid(className: string)
    | MultipleValues(kind: string)
    | NotAnEnum(attr: string, kind: string, found: PyValue)
    | BothNull(className: string)
  {
    function Message(): string {
      match this
      case RankMissing(c) =>
        "CurationSteps must declare a `self.rank` attribute; CurationStep '" + c
        + "' does not have a `self.rank` attribute"
      case RankInvalid(c) =>
        "CurationSteps require that the `self.rank` parameter is declared as a non-zero positive integer "
        + "in the `__init__` method; CurationStep '" + c + "' invalidates this"
      case MultipleValues(kind) =>
        "CurationSteps can only handle a single `" + kind + "` instance, not multiple"
      case NotAnEnum(attr, kind, v) =>
        "CurationSteps require that the `self." + attr + "` parameter is a " + kind + " enum; not a " + TypeRepr(v)
      case BothNull(c) =>
        "CurationSteps require that either `self.issue` or `self.note` attributes is not None; CurationStep '"
        + c + "' have both `self.issue` and `self.note` declared as None"
    }
  }

  /** An attribute that is absent (`None` here) or holds `None`. */
  predicate IsNull(attr: Option<PyValue>) {
    attr.None? || attr.value.PyNone?
  }

  /** The rank is present, an integer, and not negative; zero is accepted. */
  predicate RankAccepted(rank: Option<PyValue>) {
    rank.Some? && rank.value.PyInt? && rank.value.n >= 0
  }

  predicate IssueAccepted(issue: Option<PyValue>) {
    IsNull(issue) || issue.value.PyIssue?
  }

  predicate NoteAccepted(note: Option<PyValue>) {
    IsNull(note) || note.value.PyNote?
  }

  /**
   * `__post_init__` of a step of class `className`; each argument is `None`
   * when the attribute was never set. The checks run in source order: rank,
   * then issue, then note, then that not both are null.
   */
  function PostInit(className: string, rank: Option<PyValue>, issue: Option<PyValue>, note: Option<PyValue>): (r: Outcome<StepError>)
    ensures r.Pass? <==>
      RankAccepted(rank) && IssueAccepted(issue) && NoteAccepted(note) && !(IsNull(issue) && IsNull(note))
    ensures rank.None? ==> r == Fail(RankMissing(className))
    ensures rank.Some? && !RankAccepted(rank) ==> r == Fail(RankInvalid(className))
    ensures RankAccepted(rank) && !IssueAccepted(issue) ==>
      r == Fail(if issue.value.PyList? || issue.value.PyTuple? then MultipleValues("CurationIssue")
                else NotAnEnum("issue", "CurationIssue", issue.value))
    ensures RankAccepted(rank) && IssueAccepted(issue) && !NoteAccepted(note) ==>
      r == Fail(if note.value.PyList? || note.value.PyTuple? then MultipleValues("CurationNote")
                else NotAnEnum("note", "CurationNote", note.value))
    ensures RankAccepted(rank) && IssueAccepted(issue) && NoteAccepted(note) && IsNull(issue) && IsNull(note) ==>
      r == Fail(BothNull(className))
  {
    if rank.None? then Fail(RankMissing(className))
    else if !rank.value.PyInt? || rank.value.n < 0 then Fail(RankInvalid(className))
    else if !IssueAccepted(issue) then
      if issue.value.PyList? || issue.value.PyTuple? then Fail(MultipleValues("CurationIssue"))
      else Fail(NotAnEnum("issue", "CurationIssue", issue.value))
    else if !NoteAccepted(note) then
      if note.value.PyList? || note.value.PyTuple? then Fail(MultipleValues("CurationNote"))
      else Fail(NotAnEnum("note", "CurationNote", note.value))
    else if IsNull(issue) && IsNull(note) then Fail(BothNull(className))
    else Pass
  }

  /** Rank zero passes the checks, although the message speaks of a non-zero rank. */
  lemma RankZeroAccepted(className: string, issue: Issue)
    ensures PostInit(className, Some(PyInt(0)), Some(PyIssue(issue)), None) == Pass
  {
  }

  // ---------------------------------------------------------------------------
  // A constructed step: __str__, __repr__ and missing_dependency
  // ---------------------------------------------------------------------------

  /**
   * What a constructed step declares: its class name, its issue and note
   * (`None` when the class never sets the attribute), its dependencies and
   * its rank.
   */
  datatype StepInfo = StepInfo(className: string, issue: Option<Issue>, note: Option<Note>, dependency: set<string>, rank: int)

  /** `__str__`: the class name. */
  function Str(step: StepInfo): (r: string)
    ensures r == step.className
  {
    step.className
  }

  /** `__repr__`: the same text as `__str__`. */
  function Repr(step: StepInfo): (r: string)
    ensures r == Str(step)
  {
    Str(step)
  }

  /** The attributes `__post_init__` finds on a constructed step. */
  function PostInitOf(step: StepInfo): Outcome<StepError> {
    PostInit(step.className, Some(PyInt(step.rank)),
             if step.issue.Some? then Some(PyIssue(step.issue.value)) else None,
             if step.note.Some? then Some(PyNote(step.note.value)) else None)
  }

  /** A step whose attributes are well typed is accepted exactly when its rank is not negative and it declares an issue or a note. */
  lemma PostInitOfAccepts(step: StepInfo)
    ensures PostInitOf(step).Pass? <==> step.rank >= 0 && (step.issue.Some? || step.note.Some?)
  {
  }

  /** The names of a list of steps. */
  function Names(steps: seq<StepInfo>): set<string> {
    set i | 0 <= i < |steps| :: Str(steps[i])
  }

  /** `missing_dependency(steps)`: the declared dependencies no step of the list is named after. */
  function MissingDependency(step: StepInfo, steps: seq<StepInfo>): (r: set<string>)
    ensures r <= step.dependency
    ensures forall x :: x in r <==> x in step.dependency && forall i :: 0 <= i < |steps| ==> steps[i].className != x
    ensures step.dependency == {} ==> r == {}
  {
    step.dependency - Names(steps)
  }

  /** A name such as `"A|B"` is one literal name: it is missing even when steps `A` and `B` are present. */
  lemma AlternativesAreLiteral(step: StepInfo, a: StepInfo, b: StepInfo)
    requires step.dependency == {"A|B"} && a.className == "A" && b.className == "B"
    ensures MissingDependency(step, [a, b]) == {"A|B"}
  {
    assert "A|B" != "A" && "A|B" != "B";
  }

  // ---------------------------------------------------------------------------
  // SingleCurationStep.__call__ and GroupCurationStep.__call__
  // ---------------------------------------------------------------------------

  /** `func` applied to every element. */
  function MapAll<T>(func: T -> T, xs: seq<T>): (r: seq<T>)
    ensures |r| == |xs|
    ensures forall i :: 0 <= i < |xs| ==> r[i] == func(xs[i])
  {
    seq(|xs|, i requires 0 <= i < |xs| => func(xs[i]))
  }

  /**
   * The loop of both `__call__`s: `_func` is called on each element (a
   * chemical, or a group of chemicals) once, in list order, and its effect on
   * that element is the element's new value. `calls` lists the arguments the
   * calls received.
   */
  method CallEach<T>(func: T -> T, items: array<T>) returns (calls: seq<T>)
    modifies items
    ensures calls == old(items[..])
    ensures items[..] == MapAll(func, old(items[..]))
  {
    calls := [];
    ghost var before := items[..];
    for i := 0 to items.Length
      invariant calls == before[..i]
      invariant forall j :: 0 <= j < i ==> items[j] == func(before[j])
      invariant forall j :: i <= j < items.Length ==> items[j] == before[j]
    {
      calls := calls + [items[i]];
      assert before[..i + 1] == before[..i] + [before[i]];
      items[i] := func(items[i]);
    }
    assert before[..items.Length] == before;
  }

  // ---------------------------------------------------------------------------
  // GroupBy.__call__
  // ---------------------------------------------------------------------------

  /** The distinct keys of `items`, in the order of their first occurrence. */
  function KeysInOrder<T, K(==)>(items: seq<T>, key: T -> K): seq<K>
    decreases |items|
  {
    if |items| == 0 then []
    else
      var ks := KeysInOrder(items[..|items| - 1], key);
      var k := key(items[|items| - 1]);
      if k in ks then ks else ks + [k]
  }

  /** The items whose key is `k`, in input order. */
  function Members<T, K(==)>(items: seq<T>, key: T -> K, k: K): seq<T>
    decreases |items|
  {
    if |items| == 0 then []
    else
      var n := |items| - 1;
      Members(items[..n], key, k) + (if key(items[n]) == k then [items[n]] else [])
  }

  /** The total size of the groups of the keys `ks`. */
  ghost function GroupSizes<T, K>(items: seq<T>, key: T -> K, ks: seq<K>): nat
    decreases |ks|
  {
    if |ks| == 0 then 0
    else GroupSizes(items, key, ks[..|ks| - 1]) + |Members(items, key, ks[|ks| - 1])|
  }

  ghost predicate NoDuplicates<K>(ks: seq<K>) {
    forall a, b :: 0 <= a < b < |ks| ==> ks[a] != ks[b]
  }

  /** No key is listed twice. */
  lemma {:induction false} KeysDistinct<T, K>(items: seq<T>, key: T -> K)
    ensures NoDuplicates(KeysInOrder(items, key))
    decreases |items|
  {
    if |items| > 0 {
      KeysDistinct(items[..|items| - 1], key);
    }
  }

  /** The key of every item is listed. */
  lemma {:induction false} KeyListed<T, K>(items: seq<T>, key: T -> K, i: nat)
    requires i < |items|
    ensures key(items[i]) in KeysInOrder(items, key)
    decreases |items|
  {
    var n := |items| - 1;
    if i < n {
      KeyListed(items[..n], key, i);
      assert items[..n][i] == items[i];
    }
  }

  /** Every listed key is the key of some item. */
  lemma {:induction false} ListedKeyOccurs<T, K>(items: seq<T>, key: T -> K, k: K)
    requires k in KeysInOrder(items, key)
    ensures exists i :: 0 <= i < |items| && key(items[i]) == k
    decreases |items|
  {
    var n := |items| - 1;
    if k in KeysInOrder(items[..n], key) {
      ListedKeyOccurs(items[..n], key, k);
      var i :| 0 <= i < n && key(items[..n][i]) == k;
      assert items[..n][i] == items[i];
    } else {
      assert key(items[n]) == k;
    }
  }

  /** A key has members exactly when it occurs; every member carries the key. */
  lemma {:induction false} MembersOfKey<T, K>(items: seq<T>, key: T -> K, k: K)
    ensures |Members(items, key, k)| > 0 <==> k in KeysInOrder(items, key)
    ensures forall j :: 0 <= j < |Members(items, key, k)| ==> key(Members(items, key, k)[j]) == k
    decreases |items|
  {
    if |items| > 0 {
      var n := |items| - 1;
      MembersOfKey(items[..n], key, k);
    }
  }

  /** Every item belongs to the group of its own key. */
  lemma {:induction false} MemberOfOwnGroup<T, K>(items: seq<T>, key: T -> K, i: nat)
    requires i < |items|
    ensures items[i] in Members(items, key, key(items[i]))
    decreases |items|
  {
    var n := |items| - 1;
    if i < n {
      MemberOfOwnGroup(items[..n], key, i);
      assert items[..n][i] == items[i];
    }
  }

  /**
   * Every item lands in exactly one group: it is a member of a group exactly
   * when that group's key is its own, and the keys of the groups are distinct.
   */
  lemma ItemInExactlyOneGroup<T, K>(items: seq<T>, key: T -> K, i: nat, j: nat)
    requires i < |items| && j < |KeysInOrder(items, key)|
    ensures items[i] in Members(items, key, KeysInOrder(items, key)[j]) <==> KeysInOrder(items, key)[j] == key(items[i])
    ensures NoDuplicates(KeysInOrder(items, key))
  {
    var k := KeysInOrder(items, key)[j];
    KeysDistinct(items, key);
    MembersOfKey(items, key, k);
    if items[i] in Members(items, key, k) {
      var m :| 0 <= m < |Members(items, key, k)| && Members(items, key, k)[m] == items[i];
    }
    if k == key(items[i]) {
      MemberOfOwnGroup(items, key, i);
    }
  }

  /** Adding an item changes only the group of its key, by one member. */
  lemma {:induction false} SizesAfterAppend<T, K>(items: seq<T>, x: T, key: T -> K, ks: seq<K>)
    requires NoDuplicates(ks)
    ensures GroupSizes(items + [x], key, ks) == GroupSizes(items, key, ks) + (if key(x) in ks then 1 else 0)
    decreases |ks|
  {
    if |ks| > 0 {
      var m := |ks| - 1;
      assert (items + [x])[..|items|] == items;
      SizesAfterAppend(items, x, key, ks[..m]);
      assert key(x) in ks <==> key(x) in ks[..m] || key(x) == ks[m];
      assert key(x) == ks[m] ==> key(x) !in ks[..m];
    }
  }

  /** The groups together hold every item: the total size is preserved. */
  lemma {:induction false} GroupSizesTotal<T, K>(items: seq<T>, key: T -> K)
    ensures GroupSizes(items, key, KeysInOrder(items, key)) == |items|
    decreases |items|
  {
    if |items| > 0 {
      var n := |items| - 1;
      var prev := items[..n];
      var x := items[n];
      var ks := KeysInOrder(prev, key);
      GroupSizesTotal(prev, key);
      KeysDistinct(prev, key);
      assert prev + [x] == items;
      SizesAfterAppend(prev, x, key, ks);
      if key(x) !in ks {
        MembersOfKey(prev, key, key(x));
        assert KeysInOrder(items, key) == ks + [key(x)];
        assert (ks + [key(x)])[..|ks|] == ks;
      }
    }
  }

  /**
   * Groups come in the order of first occurrence: wherever an item has the key
   * of a later group, an item with the key of an earlier group came before it.
   */
  lemma {:induction false} KeysFirstOccurrence<T, K>(items: seq<T>, key: T -> K, a: nat, b: nat, i: nat)
    requires a < b < |KeysInOrder(items, key)| && i < |items|
    requires key(items[i]) == KeysInOrder(items, key)[b]
    ensures exists i0 :: 0 <= i0 < i && key(items[i0]) == KeysInOrder(items, key)[a]
    decreases |items|
  {
    var n := |items| - 1;
    var prev := items[..n];
    var ks := KeysInOrder(prev, key);
    if i < n {
      assert prev[i] == items[i];
      if b < |ks| {
        KeysFirstOccurrence(prev, key, a, b, i);
        var i0 :| 0 <= i0 < i && key(prev[i0]) == ks[a];
        assert items[i0] == prev[i0];
      } else {
        // the key of group b is new at position n, yet it occurs at i < n
        KeyListed(prev, key, i);
        assert false;
      }
    } else {
      ListedKeyOccurs(prev, key, ks[a]);
      var i0 :| 0 <= i0 < |prev| && key(prev[i0]) == ks[a];
      assert items[i0] == prev[i0];
    }
  }

  /**
   * `GroupBy.__call__(items)`: a dictionary keyed by `_get_group_attribute`,
   * filled in one pass, whose values are returned in key insertion order.
   */
  method GroupBy<T, K(==)>(items: seq<T>, key: T -> K) returns (groups: seq<seq<T>>)
    ensures |groups| == |KeysInOrder(items, key)|
    ensures forall j :: 0 <= j < |groups| ==> groups[j] == Members(items, key, KeysInOrder(items, key)[j])
  {
    var keys: seq<K> := [];
    var table: map<K, seq<T>> := map[];
    for i := 0 to |items|
      invariant keys == KeysInOrder(items[..i], key)
      invariant forall k :: k in table <==> k in keys
      invariant forall k :: k in table ==> table[k] == Members(items[..i], key, k)
    {
      var k := key(items[i]);
      assert items[..i + 1][..i] == items[..i];
      if k in table {
        table := table[k := table[k] + [items[i]]];
      } else {
        MembersOfKey(items[..i], key, k);
        keys := keys + [k];
        table := table[k := [items[i]]];
      }
    }
    assert items[..|items|] == items;
    groups := [];
    for j := 0 to |keys|
      invariant |groups| == j
      invariant forall j' :: 0 <= j' < j ==> groups[j'] == Members(items, key, keys[j'])
    {
      groups := groups + [table[keys[j]]];
    }
  }
}
