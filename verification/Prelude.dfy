/** Vocabulary shared by the models: optional values, task complexity, Python slices, and sums
    over the keys of a dictionary. */
module Prelude {

  datatype Option<+T> = None | Some(value: T)

  /** `ComplexityLevel`, by which both the workflow and the router choose an endpoint. */
  datatype Complexity = Trivial | Routine | Complex | ToolHeavy

  ghost predicate Distinct<T>(s: seq<T>) {
    forall i, j :: 0 <= i < j < |s| ==> s[i] != s[j]
  }

  /** Python's `s[:n]`: a negative `n` counts from the end. */
  function Prefix<T>(s: seq<T>, n: int): seq<T> {
    if n >= |s| then s
    else if n >= 0 then s[..n]
    else if |s| + n >= 0 then s[..|s| + n]
    else []
  }

  /** Python's `s[n:]`: a negative `n` counts from the end, and `s[-0:]` is all of `s`. */
  function Suffix<T>(s: seq<T>, n: int): seq<T> {
    if n >= |s| then []
    else if n >= 0 then s[n..]
    else if |s| + n >= 0 then s[|s| + n..]
    else s
  }

  /** `"\n".join(lines)`. */
  function Join(lines: seq<string>): string {
    if lines == [] then ""
    else if |lines| == 1 then lines[0]
    else Join(lines[..|lines| - 1]) + "\n" + lines[|lines| - 1]
  }

  /** `s.split(sep)` for a one-character separator. */
  function Split(s: string, sep: char): (parts: seq<string>)
    ensures |parts| >= 1
  {
    if s == "" then [""]
    else
      var n := |s| - 1;
      var parts := Split(s[..n], sep);
      if s[n] == sep then parts + [""]
      else parts[..|parts| - 1] + [parts[|parts| - 1] + [s[n]]]
  }

  function Max(a: int, b: int): int {
    if a < b then b else a
  }

  /** A slice `s[:n]` that is shorter than `s`. */
  lemma {:induction false} PrefixIs<T>(s: seq<T>, n: int)
    requires |s| > n
    ensures var m := if n >= 0 then n else Max(0, |s| + n); m <= |s| && Prefix(s, n) == s[..m]
  {
  }

  lemma {:induction false} ConcatAssociative<T>(a: seq<T>, b: seq<T>, c: seq<T>)
    ensures a + (b + c) == (a + b) + c
  {
  }

  /** The sum of `at[k]` over the listed keys. */
  function Sum<T(==,!new)>(ks: seq<T>, at: map<T, real>): real
    requires forall k :: k in ks ==> k in at
  {
    if ks == [] then 0.0 else at[ks[0]] + Sum(ks[1..], at)
  }

  lemma {:induction false} SumConcat<T(!new)>(a: seq<T>, b: seq<T>, at: map<T, real>)
    requires forall k :: k in a + b ==> k in at
    ensures forall k :: k in a ==> k in at
    ensures forall k :: k in b ==> k in at
    ensures Sum(a + b, at) == Sum(a, at) + Sum(b, at)
  {
    assert forall k :: k in a ==> k in a + b;
    assert forall k :: k in b ==> k in a + b;
    if a == [] {
      assert a + b == b;
    } else {
      assert (a + b)[1..] == a[1..] + b;
      SumConcat(a[1..], b, at);
    }
  }

  /** Taking out the element at one position takes it out altogether. */
  lemma {:induction false} RemoveDistinct<T(!new)>(b: seq<T>, j: nat)
    requires j < |b| && Distinct(b)
    ensures Distinct(b[..j] + b[j + 1..])
    ensures forall k :: k in b[..j] + b[j + 1..] <==> k in b && k != b[j]
  {
    var rest := b[..j] + b[j + 1..];
    forall k | k in b && k != b[j] ensures k in rest {
      var m :| 0 <= m < |b| && b[m] == k;
      assert if m < j then rest[m] == k else rest[m - 1] == k;
    }
  }

  lemma {:induction false} SumSplit<T(!new)>(b: seq<T>, j: nat, at: map<T, real>)
    requires j < |b| && forall k :: k in b ==> k in at
    ensures forall k :: k in b[..j] + b[j + 1..] ==> k in at
    ensures Sum(b, at) == at[b[j]] + Sum(b[..j] + b[j + 1..], at)
  {
    var front, back := b[..j], b[j + 1..];
    assert b == front + ([b[j]] + back) && ([b[j]] + back)[1..] == back;
    SumConcat(front, [b[j]] + back, at);
    SumConcat(front, back, at);
  }

  /** A sum does not depend on the order in which distinct keys are listed. */
  lemma {:induction false} SumSameKeys<T(!new)>(a: seq<T>, b: seq<T>, at: map<T, real>)
    requires Distinct(a) && Distinct(b)
    requires forall k :: k in a <==> k in b
    requires forall k :: k in a ==> k in at
    ensures Sum(a, at) == Sum(b, at)
  {
    assert |b| > 0 ==> b[0] in a;
    if a == [] {
    } else {
      assert a[0] in b;
      var j :| 0 <= j < |b| && b[j] == a[0];
      RemoveDistinct(b, j);
      SumSplit(b, j, at);
      assert forall k :: k in a[1..] <==> k in a && k != a[0];
      SumSameKeys(a[1..], b[..j] + b[j + 1..], at);
    }
  }

  /** Distinct elements are as many as the set they make up. */
  lemma {:induction false} DistinctCardinality<T(!new)>(s: seq<T>)
    requires Distinct(s)
    ensures |set x | x in s| == |s|
  {
    if s != [] {
      var n := |s| - 1;
      DistinctCardinality(s[..n]);
      assert s == s[..n] + [s[n]];
      assert (set x | x in s) == (set x | x in s[..n]) + {s[n]};
    } else {
      assert (set x | x in s) == {};
    }
  }

  lemma {:induction false} SubsetCardinality<T(!new)>(a: set<T>, b: set<T>)
    requires a <= b
    ensures |a| <= |b|
  {
    assert a + (b - a) == b;
  }

  lemma {:induction false} SplitWithout(s: string, sep: char)
    requires sep !in s
    ensures Split(s, sep) == [s]
  {
    if s == "" {
    } else {
      var n := |s| - 1;
      SplitWithout(s[..n], sep);
      assert s == s[..n] + [s[n]];
    }
  }

  lemma {:induction false} SplitSnoc(s: string, c: char, sep: char)
    ensures var parts := Split(s, sep);
      var n := |parts| - 1;
      Split(s + [c], sep) == if c == sep then parts + [""] else parts[..n] + [parts[n] + [c]]
  {
    assert (s + [c])[..|s|] == s;
  }

  lemma {:induction false} ExtendLast(x: seq<string>, y: seq<string>, c: char)
    requires y != []
    ensures var n, m := |x + y| - 1, |y| - 1;
      (x + y)[..n] + [(x + y)[n] + [c]] == x + (y[..m] + [y[m] + [c]])
  {
  }

  lemma {:induction false} SplitEnd(a: string, sep: char)
    ensures Split(a + [sep] + "", sep) == Split(a, sep) + Split("", sep)
  {
    SplitSnoc(a, sep, sep);
    assert a + [sep] + "" == a + [sep];
  }

  /** A text split at one separator is its two sides, split. */
  lemma {:induction false} SplitConcat(a: string, b: string, sep: char)
    ensures Split(a + [sep] + b, sep) == Split(a, sep) + Split(b, sep)
  {
    hide *;
    if b == "" {
      SplitEnd(a, sep);
    } else {
      var m := |b| - 1;
      var front := b[..m];
      SplitConcat(a, front, sep);
      SplitSnoc(a + [sep] + front, b[m], sep);
      SplitSnoc(front, b[m], sep);
      ExtendLast(Split(a, sep), Split(front, sep), b[m]);
      ConcatAssociative(Split(a, sep), Split(front, sep), [""]);
      ConcatAssociative(a + [sep], front, [b[m]]);
      assert b == front + [b[m]];
    }
  }

  lemma {:induction false} SplitAtOnly(a: string, b: string, sep: char)
    requires sep !in a && sep !in b
    ensures Split(a + [sep] + b, sep) == [a, b]
  {
    hide *;
    SplitConcat(a, b, sep);
    SplitWithout(a, sep);
    SplitWithout(b, sep);
  }

  /** Lines joined by a separator are read back by splitting, if none of them holds it. */
  lemma {:induction false} JoinReadsBack(lines: seq<string>)
    requires lines != [] && forall k :: 0 <= k < |lines| ==> '\n' !in lines[k]
    ensures Split(Join(lines), '\n') == lines
  {
    var n := |lines| - 1;
    SplitWithout(lines[n], '\n');
    if n == 0 {
    } else {
      JoinReadsBack(lines[..n]);
      assert Join(lines) == Join(lines[..n]) + ['\n'] + lines[n];
      SplitConcat(Join(lines[..n]), lines[n], '\n');
      assert lines == lines[..n] + [lines[n]];
    }
    hide Split, Join;
  }
}
