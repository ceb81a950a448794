/** String helpers with Python's meaning: `str.join`, `str.lower`, `in`, `str.split` and `str(int)`. */
module Text {

  /** `sep.join(parts)` */
  function Join(sep: string, parts: seq<string>): string
    decreases |parts|
  {
    if |parts| == 0 then ""
    else if |parts| == 1 then parts[0]
    else parts[0] + sep + Join(sep, parts[1..])
  }

  /** Lower-casing of the ASCII letters; every other character is kept. */
  function LowerChar(c: char): char {
    if 'A' <= c <= 'Z' then (c as int + 32) as char else c
  }

  /** `s.lower()` restricted to ASCII letters. */
  function Lower(s: string): (r: string)
    ensures |r| == |s|
    ensures forall i :: 0 <= i < |s| ==> r[i] == LowerChar(s[i])
  {
    seq(|s|, i requires 0 <= i < |s| => LowerChar(s[i]))
  }

  /** `p` occurs in `s` starting at position `i`. */
  ghost predicate OccursAt(p: string, s: string, i: int) {
    0 <= i && i + |p| <= |s| && s[i..i + |p|] == p
  }

  /** `p in s` */
  ghost predicate IsSubstring(p: string, s: string) {
    exists i :: OccursAt(p, s, i)
  }

  /** Substring search, scanning `s` from the left. */
  function Contains(s: string, p: string): (r: bool)
    ensures r <==> IsSubstring(p, s)
    decreases |s|
  {
    if |p| > |s| then
      assert forall i :: !OccursAt(p, s, i);
      false
    else if s[..|p|] == p then
      assert OccursAt(p, s, 0);
      true
    else
      var r := Contains(s[1..], p);
      assert forall i :: OccursAt(p, s[1..], i) <==> OccursAt(p, s, i + 1) by {
        forall i ensures OccursAt(p, s[1..], i) <==> OccursAt(p, s, i + 1) {
          if 0 <= i && i + |p| <= |s| - 1 {
            assert s[1..][i..i + |p|] == s[i + 1..i + 1 + |p|];
          }
        }
      }
      assert !OccursAt(p, s, 0);
      assert IsSubstring(p, s) ==> IsSubstring(p, s[1..]) by {
        if IsSubstring(p, s) {
          var i :| OccursAt(p, s, i);
          assert OccursAt(p, s[1..], i - 1);
        }
      }
      r
  }

  function DigitChar(d: nat): char
    requires d < 10
  {
    "0123456789"[d]
  }

  /** Decimal rendering of a natural number. */
  function NatToString(n: nat): (r: string)
    ensures |r| >= 1
    ensures forall i :: 0 <= i < |r| ==> '0' <= r[i] <= '9'
    decreases n
  {
    if n < 10 then [DigitChar(n)] else NatToString(n / 10) + [DigitChar(n % 10)]
  }

  /** `str(i)` for a Python int. */
  function IntToString(i: int): string {
    if i < 0 then "-" + NatToString(-i) else NatToString(i)
  }

  /** `s.split(d)` for a single-character separator. */
  function Split(s: string, d: char): (r: seq<string>)
    ensures |r| >= 1
    decreases |s|
  {
    if |s| == 0 then [""]
    else if s[0] == d then [""] + Split(s[1..], d)
    else
      var rest := Split(s[1..], d);
      [[s[0]] + rest[0]] + rest[1..]
  }

  /** A field free of the separator splits into itself. */
  lemma {:induction false} SplitField(a: string, d: char)
    requires d !in a
    ensures Split(a, d) == [a]
    decreases |a|
  {
    if |a| > 0 {
      assert a[1..] + [] == a[1..];
      SplitField(a[1..], d);
      assert [a[0]] + a[1..] == a;
    }
  }

  /** Splitting a field followed by the separator yields the field, then the rest. */
  lemma {:induction false} SplitCons(a: string, d: char, rest: string)
    requires d !in a
    ensures Split(a + [d] + rest, d) == [a] + Split(rest, d)
    decreases |a|
  {
    if |a| == 0 {
      assert a + [d] + rest == [d] + rest;
      assert ([d] + rest)[1..] == rest;
    } else {
      var s := a + [d] + rest;
      assert s[0] == a[0];
      assert s[1..] == a[1..] + [d] + rest;
      SplitCons(a[1..], d, rest);
      assert [a[0]] + a[1..] == a;
    }
  }

  /** Joining separator-free fields and splitting again gives the fields back. */
  lemma {:induction false} SplitJoin(parts: seq<string>, d: char)
    requires |parts| >= 1
    requires forall k :: 0 <= k < |parts| ==> d !in parts[k]
    ensures Split(Join([d], parts), d) == parts
    decreases |parts|
  {
    if |parts| == 1 {
      SplitField(parts[0], d);
    } else {
      SplitJoin(parts[1..], d);
      SplitCons(parts[0], d, Join([d], parts[1..]));
      assert parts == [parts[0]] + parts[1..];
    }
  }

  /** Joining one joined tail onto a non-empty head is joining the concatenation. */
  lemma {:induction false} JoinAppend(sep: string, head: seq<string>, tail: seq<string>)
    requires |head| >= 1 && |tail| >= 1
    ensures Join(sep, head + [Join(sep, tail)]) == Join(sep, head + tail)
    decreases |head|
  {
    if |head| == 1 {
      assert head + [Join(sep, tail)] == [head[0], Join(sep, tail)];
      assert (head + tail)[1..] == tail;
    } else {
      JoinAppend(sep, head[1..], tail);
      assert (head + [Join(sep, tail)])[1..] == head[1..] + [Join(sep, tail)];
      assert (head + tail)[1..] == head[1..] + tail;
    }
  }
}
