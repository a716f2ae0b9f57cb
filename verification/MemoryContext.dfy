/** The bounded printer of remembered facts (src/memory/mem0_client.py:352-379). */
module MemoryContext {
  import opened Prelude

  const OPENING := "<relevant_memories>"
  const CLOSING := "</relevant_memories>"
  const TRUNCATED := "- ... (additional memories truncated)"

  function LineOf(content: string): string {
    "- " + content
  }

  /** The characters the budget counts for the first `k` memories. */
  function Counted(contents: seq<string>, k: nat): nat
    requires k <= |contents|
  {
    if k == 0 then 0 else Counted(contents, k - 1) + |LineOf(contents[k - 1])|
  }

  /** `k` memories fit, and not one more. */
  ghost predicate IsLongestRun(contents: seq<string>, maxTokens: int, k: nat) {
    && k <= |contents|
    && (k > 0 ==> Counted(contents, k) <= maxTokens * 4)
    && (k < |contents| ==> Counted(contents, k + 1) > maxTokens * 4)
  }

  function KeptLines(contents: seq<string>, k: nat): seq<string>
    requires k <= |contents|
  {
    if k == 0 then [] else KeptLines(contents, k - 1) + [LineOf(contents[k - 1])]
  }

  /** The lines of the output when the first `k` memories are kept. */
  function OutputLines(contents: seq<string>, k: nat): seq<string>
    requires k <= |contents|
  {
    [OPENING] + KeptLines(contents, k) + (if k < |contents| then [TRUNCATED] else []) + [CLOSING]
  }

  /** `format_memories_for_context`. */
  method FormatMemories(contents: seq<string>, maxTokens: int) returns (s: string)
    ensures exists kept: nat ::
      && IsLongestRun(contents, maxTokens, kept)
      && s == if contents == [] then "" else Join(OutputLines(contents, kept))
  {
    ghost var kept: nat := 0;
    if contents == [] {
      assert IsLongestRun(contents, maxTokens, kept);
      return "";
    }
    var lines := [OPENING];
    var charCount := 0;
    var maxChars := maxTokens * 4;
    for i := 0 to |contents|
      invariant kept == i && charCount == Counted(contents, i)
      invariant i > 0 ==> charCount <= maxChars
      invariant lines == [OPENING] + KeptLines(contents, i)
    {
      var line := LineOf(contents[i]);
      if charCount + |line| > maxChars {
        lines := lines + [TRUNCATED];
        break;
      }
      lines := lines + [line];
      charCount := charCount + |line|;
      kept := i + 1;
    }
    lines := lines + [CLOSING];
    assert lines == OutputLines(contents, kept);
    s := Join(lines);
    assert IsLongestRun(contents, maxTokens, kept);
  }

  lemma {:induction false} KeptAt(contents: seq<string>, k: nat, i: nat)
    requires i < k <= |contents|
    ensures |KeptLines(contents, k)| == k && KeptLines(contents, k)[i] == "- " + contents[i]
    decreases k
  {
    if i < k - 1 {
      KeptAt(contents, k - 1, i);
    } else {
      KeptCount(contents, k - 1);
    }
  }

  lemma {:induction false} KeptCount(contents: seq<string>, k: nat)
    requires k <= |contents|
    ensures |KeptLines(contents, k)| == k
  {
    if k == 0 {
    } else {
      KeptCount(contents, k - 1);
    }
  }

  /** The lines of the output: the kept memories in order between the two tags, and after them the note
      that some were dropped, if so. */
  ghost predicate IsOutput(lines: seq<string>, contents: seq<string>, k: nat) {
    && k <= |contents| && |lines| == k + (if k < |contents| then 3 else 2)
    && lines[0] == "<relevant_memories>" && lines[|lines| - 1] == "</relevant_memories>"
    && (forall i :: 0 <= i < k ==> lines[i + 1] == "- " + contents[i])
    && (k < |contents| ==> lines[k + 1] == "- ... (additional memories truncated)")
  }

  /** The printed text consists of these lines, and falls apart into them again if no memory holds a
      line break. */
  lemma {:induction false} OutputReadsBack(contents: seq<string>, k: nat)
    requires k <= |contents|
    ensures IsOutput(OutputLines(contents, k), contents, k)
    ensures (forall i :: 0 <= i < |contents| ==> '\n' !in contents[i]) ==>
      Split(Join(OutputLines(contents, k)), '\n') == OutputLines(contents, k)
  {
    var lines := OutputLines(contents, k);
    KeptCount(contents, k);
    forall i | 0 <= i < k ensures lines[i + 1] == "- " + contents[i] {
      KeptAt(contents, k, i);
    }
    hide KeptLines, Split, Join;
    if forall i :: 0 <= i < |contents| ==> '\n' !in contents[i] {
      forall j | 0 <= j < |lines| ensures '\n' !in lines[j] {
        if 0 < j <= k {
          assert lines[j] == "- " + contents[j - 1];
        }
      }
      JoinReadsBack(lines);
    }
  }

  lemma {:induction false} CountedMonotone(contents: seq<string>, j: nat, k: nat)
    requires j <= k <= |contents|
    ensures Counted(contents, j) + 2 * (k - j) <= Counted(contents, k)
    decreases k - j
  {
    if j == k {
    } else {
      CountedMonotone(contents, j, k - 1);
    }
  }

  /** The run is the longest of all that fit: a larger budget never keeps fewer memories, and one
      budget determines the number. */
  lemma {:induction false} LongestRunMonotone(contents: seq<string>, maxTokens: int, k: nat, larger: int, m: nat)
    requires IsLongestRun(contents, maxTokens, k) && IsLongestRun(contents, larger, m) && maxTokens <= larger
    ensures k <= m
    ensures forall j :: m < j <= |contents| ==> Counted(contents, j) > larger * 4
  {
    if m < |contents| {
      forall j | m < j <= |contents| ensures Counted(contents, j) > larger * 4 {
        CountedMonotone(contents, m + 1, j);
      }
    }
  }

  ghost function TotalLength(lines: seq<string>): nat {
    if lines == [] then 0 else TotalLength(lines[..|lines| - 1]) + |lines[|lines| - 1]|
  }

  lemma {:induction false} JoinLength(lines: seq<string>)
    requires lines != []
    ensures |Join(lines)| == TotalLength(lines) + |lines| - 1
  {
    var n := |lines| - 1;
    if n == 0 {
      assert TotalLength(lines[..0]) == 0;
    } else {
      JoinLength(lines[..n]);
    }
  }

  lemma {:induction false} TotalLengthConcat(a: seq<string>, b: seq<string>)
    ensures TotalLength(a + b) == TotalLength(a) + TotalLength(b)
  {
    if b == [] {
      assert a + b == a;
    } else {
      assert (a + b)[..|a + b| - 1] == a + b[..|b| - 1];
      TotalLengthConcat(a, b[..|b| - 1]);
    }
  }

  lemma {:induction false} KeptLength(contents: seq<string>, k: nat)
    requires k <= |contents|
    ensures TotalLength(KeptLines(contents, k)) == Counted(contents, k) && |KeptLines(contents, k)| == k
  {
    if k == 0 {
    } else {
      KeptLength(contents, k - 1);
      assert KeptLines(contents, k)[..k - 1] == KeptLines(contents, k - 1);
    }
  }

  lemma {:induction false} OneLine(line: string)
    ensures TotalLength([line]) == |line|
  {
    assert [line][..0] == [];
  }

  /** The framing, the kept memories, the truncation line if one was dropped, and a newline between
      any two lines. */
  lemma {:induction false} OutputLength(contents: seq<string>, k: nat)
    requires k <= |contents|
    ensures |Join(OutputLines(contents, k))| == 40 + Counted(contents, k) + k + (if k < |contents| then 38 else 0)
  {
    var kept := KeptLines(contents, k);
    var tail := if k < |contents| then [TRUNCATED] else [];
    KeptLength(contents, k);
    OneLine(OPENING);
    OneLine(CLOSING);
    OneLine(TRUNCATED);
    TotalLengthConcat([OPENING], kept);
    TotalLengthConcat([OPENING] + kept, tail);
    TotalLengthConcat([OPENING] + kept + tail, [CLOSING]);
    JoinLength(OutputLines(contents, k));
    assert TotalLength(tail) == if k < |contents| then 37 else 0;
    hide TotalLength, KeptLines, Join;
  }

  /** The whole output, uncounted newlines and framing included, stays within one and a half times
      the budget and 78 characters. */
  lemma {:induction false} OutputBound(contents: seq<string>, maxTokens: int, k: nat)
    requires IsLongestRun(contents, maxTokens, k)
    ensures 2 * |Join(OutputLines(contents, k))| <= 3 * Max(0, maxTokens * 4) + 2 * 78
  {
    OutputLength(contents, k);
    CountedMonotone(contents, 0, k);
    hide Join, OutputLines;
  }

  function Empties(n: nat): (r: seq<string>)
    ensures |r| == n && forall i :: 0 <= i < n ==> r[i] == ""
  {
    seq(n, _ => "")
  }

  lemma {:induction false} CountedEmpties(n: nat, k: nat)
    requires k <= n
    ensures Counted(Empties(n), k) == 2 * k
  {
    if k == 0 {
    } else {
      CountedEmpties(n, k - 1);
    }
  }

  /** The bound is met: twice `maxTokens` empty memories just fit, one more is dropped. */
  lemma {:induction false} OutputBoundIsTight(maxTokens: nat)
    ensures var contents, k := Empties(2 * maxTokens + 1), 2 * maxTokens;
      IsLongestRun(contents, maxTokens, k) && 2 * |Join(OutputLines(contents, k))| == 3 * (maxTokens * 4) + 2 * 78
  {
    var contents, k := Empties(2 * maxTokens + 1), 2 * maxTokens;
    CountedEmpties(2 * maxTokens + 1, k);
    CountedEmpties(2 * maxTokens + 1, k + 1);
    OutputLength(contents, k);
    hide Empties, Join, OutputLines;
  }
}
