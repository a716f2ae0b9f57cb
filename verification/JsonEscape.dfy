/** The hand-written JSON escaper (benchmarks/benchmark-sweep.sh:79-115): a chain of global
    substitutions, against one pass over the characters and the string grammar of section 7 of
    RFC 8259. */
module JsonEscape {
  import opened Prelude

  /** `${s//pattern/replacement}` for literal text; an empty pattern replaces nothing. */
  function ReplaceAll(s: string, pattern: string, replacement: string): string {
    if pattern == "" || |s| < |pattern| then s
    else if s[..|pattern|] == pattern then replacement + ReplaceAll(s[|pattern|..], pattern, replacement)
    else [s[0]] + ReplaceAll(s[1..], pattern, replacement)
  }

  function Hex(n: nat): char
    requires n < 16
  {
    "0123456789ABCDEF"[n]
  }

  /** The escape of one character that needs one. */
  function EscapeOf(c: char): string
    requires c == '\\' || c == '"' || c < ' '
  {
    if c == '\\' then "\\\\"
    else if c == '"' then "\\\""
    else if c == '\U{08}' then "\\b"
    else if c == '\t' then "\\t"
    else if c == '\n' then "\\n"
    else if c == '\U{0C}' then "\\f"
    else if c == '\r' then "\\r"
    else "\\u00" + [Hex(c as int / 16), Hex(c as int % 16)]
  }

  /** The position of the substitution that handles `c`; none handles NUL or ordinary characters. */
  function Turn(c: char): nat {
    if c == '\\' then 0
    else if c == '"' then 1
    else if '\0' < c < ' ' then c as int + 2
    else 34
  }

  /** The text after the first `k` substitutions, in one pass. */
  function EscapedUpTo(s: string, k: nat): string
    requires k <= 34
  {
    if s == "" then ""
    else (if Turn(s[0]) < k then EscapeOf(s[0]) else [s[0]]) + EscapedUpTo(s[1..], k)
  }

  /** One pass that escapes every backslash, quote and control character but NUL. */
  function Escaped(s: string): string {
    EscapedUpTo(s, 34)
  }

  /** Line `k` of the chain: what it looks for, and what it puts in its place. */
  predicate IsPass(k: nat, pattern: string, replacement: string) {
    k < 34 &&
    if k == 2 then pattern == ""
    else |pattern| == 1 && Turn(pattern[0]) == k && replacement == EscapeOf(pattern[0])
  }

  lemma {:induction false} ReplaceConcat(a: string, b: string, pattern: string, replacement: string)
    requires |pattern| == 1
    ensures ReplaceAll(a + b, pattern, replacement) ==
      ReplaceAll(a, pattern, replacement) + ReplaceAll(b, pattern, replacement)
  {
    if a == "" {
      assert a + b == b;
    } else {
      assert (a + b)[..1] == a[..1] && (a + b)[1..] == a[1..] + b;
      ReplaceConcat(a[1..], b, pattern, replacement);
    }
  }

  lemma {:induction false} ReplaceAbsent(s: string, pattern: string, replacement: string)
    requires |pattern| == 1 && pattern[0] !in s
    ensures ReplaceAll(s, pattern, replacement) == s
  {
    if s == "" {
    } else {
      ReplaceAbsent(s[1..], pattern, replacement);
    }
  }

  /** Escapes hold no control characters, and the backslash's own escape holds no quote. */
  lemma {:induction false} EscapeIsInert(c: char)
    requires c == '\\' || c == '"' || '\0' < c < ' '
    ensures forall x :: x in EscapeOf(c) ==> x >= ' '
    ensures c == '\\' ==> '"' !in EscapeOf(c)
  {
    if c < ' ' {
      assert c as int / 16 < 16 && c as int % 16 < 16;
      assert forall n: nat :: n < 16 ==> Hex(n) >= ' ';
    }
  }

  lemma {:induction false} PassOnOne(c: char, k: nat, pattern: string, replacement: string)
    requires IsPass(k, pattern, replacement)
    ensures ReplaceAll(EscapedUpTo([c], k), pattern, replacement) == EscapedUpTo([c], k + 1)
  {
    var one := EscapedUpTo([c], k);
    assert [c][1..] == "" && EscapedUpTo("", k) == "" && EscapedUpTo("", k + 1) == "";
    assert one == if Turn(c) < k then EscapeOf(c) else [c];
    if k == 2 {
    } else if Turn(c) < k {
      EscapeIsInert(c);
      ReplaceAbsent(one, pattern, replacement);
    } else if Turn(c) == k {
      TurnIsUnique(c, pattern[0]);
      assert one[..1] == pattern && one[1..] == "";
      assert ReplaceAll("", pattern, replacement) == "";
    } else {
      ReplaceAbsent(one, pattern, replacement);
    }
  }

  lemma {:induction false} TurnIsUnique(c: char, d: char)
    requires Turn(c) == Turn(d) < 34
    ensures c == d
  {
  }

  lemma {:induction false} EscapedUnfold(s: string, k: nat)
    requires s != "" && k <= 34
    ensures EscapedUpTo(s, k) == EscapedUpTo([s[0]], k) + EscapedUpTo(s[1..], k)
  {
    assert [s[0]][1..] == "" && EscapedUpTo("", k) == "";
  }

  /** One substitution of the chain is one more character handled by the single pass. */
  lemma {:induction false} PassOnAll(s: string, k: nat, pattern: string, replacement: string)
    requires IsPass(k, pattern, replacement)
    ensures ReplaceAll(EscapedUpTo(s, k), pattern, replacement) == EscapedUpTo(s, k + 1)
  {
    if s == "" {
    } else {
      PassOnAll(s[1..], k, pattern, replacement);
      PassOnOne(s[0], k, pattern, replacement);
      EscapedUnfold(s, k);
      EscapedUnfold(s, k + 1);
      if k != 2 {
        ReplaceConcat(EscapedUpTo([s[0]], k), EscapedUpTo(s[1..], k), pattern, replacement);
      }
      hide EscapedUpTo;
    }
  }

  /** One line of the chain, on a text that `k` lines have already treated. */
  method Pass(str: string, pattern: string, replacement: string, ghost original: string, ghost k: nat)
    returns (r: string)
    requires IsPass(k, pattern, replacement) && str == EscapedUpTo(original, k)
    ensures r == EscapedUpTo(original, k + 1)
  {
    PassOnAll(original, k, pattern, replacement);
    r := ReplaceAll(str, pattern, replacement);
  }

  lemma {:induction false} NothingEscaped(s: string)
    ensures EscapedUpTo(s, 0) == s
  {
    if s == "" {
    } else {
      NothingEscaped(s[1..]);
    }
  }

  /** The manual branch of `json_escape`, its 34 substitutions in four groups. */
  method JsonEscapeManually(s: string) returns (str: string)
    ensures str == Escaped(s)
  {
    str := EscapeFirst(s);
    str := EscapeWhitespace(str, s);
    str := EscapeMiddle(str, s);
    str := EscapeLast(str, s);
  }

  /** Backslash, quote, NUL and U+0001 to U+0007. */
  method EscapeFirst(s: string) returns (str: string)
    ensures str == EscapedUpTo(s, 10)
  {
    hide EscapedUpTo;
    NothingEscaped(s);
    str := s;
    str := Pass(str, "\\", "\\\\", s, 0);
    str := Pass(str, "\"", "\\\"", s, 1);
    str := Pass(str, "", "\\u0000", s, 2);
    str := Pass(str, "\U{01}", "\\u0001", s, 3);
    str := Pass(str, "\U{02}", "\\u0002", s, 4);
    str := Pass(str, "\U{03}", "\\u0003", s, 5);
    str := Pass(str, "\U{04}", "\\u0004", s, 6);
    str := Pass(str, "\U{05}", "\\u0005", s, 7);
    str := Pass(str, "\U{06}", "\\u0006", s, 8);
    str := Pass(str, "\U{07}", "\\u0007", s, 9);
  }

  /** U+0008 to U+000F. */
  method EscapeWhitespace(before: string, ghost s: string) returns (str: string)
    requires before == EscapedUpTo(s, 10)
    ensures str == EscapedUpTo(s, 18)
  {
    hide EscapedUpTo;
    str := before;
    str := Pass(str, "\U{08}", "\\b", s, 10);
    str := Pass(str, "\U{09}", "\\t", s, 11);
    str := Pass(str, "\U{0A}", "\\n", s, 12);
    str := Pass(str, "\U{0B}", "\\u000B", s, 13);
    str := Pass(str, "\U{0C}", "\\f", s, 14);
    str := Pass(str, "\U{0D}", "\\r", s, 15);
    str := Pass(str, "\U{0E}", "\\u000E", s, 16);
    str := Pass(str, "\U{0F}", "\\u000F", s, 17);
  }

  /** U+0010 to U+0017. */
  method EscapeMiddle(before: string, ghost s: string) returns (str: string)
    requires before == EscapedUpTo(s, 18)
    ensures str == EscapedUpTo(s, 26)
  {
    hide EscapedUpTo;
    str := before;
    str := Pass(str, "\U{10}", "\\u0010", s, 18);
    str := Pass(str, "\U{11}", "\\u0011", s, 19);
    str := Pass(str, "\U{12}", "\\u0012", s, 20);
    str := Pass(str, "\U{13}", "\\u0013", s, 21);
    str := Pass(str, "\U{14}", "\\u0014", s, 22);
    str := Pass(str, "\U{15}", "\\u0015", s, 23);
    str := Pass(str, "\U{16}", "\\u0016", s, 24);
    str := Pass(str, "\U{17}", "\\u0017", s, 25);
  }

  /** U+0018 to U+001F. */
  method EscapeLast(before: string, ghost s: string) returns (str: string)
    requires before == EscapedUpTo(s, 26)
    ensures str == EscapedUpTo(s, 34)
  {
    hide EscapedUpTo;
    str := before;
    str := Pass(str, "\U{18}", "\\u0018", s, 26);
    str := Pass(str, "\U{19}", "\\u0019", s, 27);
    str := Pass(str, "\U{1A}", "\\u001A", s, 28);
    str := Pass(str, "\U{1B}", "\\u001B", s, 29);
    str := Pass(str, "\U{1C}", "\\u001C", s, 30);
    str := Pass(str, "\U{1D}", "\\u001D", s, 31);
    str := Pass(str, "\U{1E}", "\\u001E", s, 32);
    str := Pass(str, "\U{1F}", "\\u001F", s, 33);
  }

  // ----- reading it back -------------------------------------------------

  function HexValue(c: char): Option<nat> {
    if '0' <= c <= '9' then Some(c as int - '0' as int)
    else if 'A' <= c <= 'F' then Some(c as int - 'A' as int + 10)
    else if 'a' <= c <= 'f' then Some(c as int - 'a' as int + 10)
    else None
  }

  /** The character a four-digit escape denotes; surrogates denote none on their own. */
  function FourHex(s: string): Option<char>
    requires |s| == 4
  {
    var (a, b, c, d) := (HexValue(s[0]), HexValue(s[1]), HexValue(s[2]), HexValue(s[3]));
    if a.Some? && b.Some? && c.Some? && d.Some? then
      var code := ((a.value * 16 + b.value) * 16 + c.value) * 16 + d.value;
      if code < 0xD800 || 0xE000 <= code < 0x10000 then Some(code as char) else None
    else None
  }

  function Simple(c: char): Option<char> {
    if c == '"' || c == '\\' || c == '/' then Some(c)
    else if c == 'b' then Some('\U{08}')
    else if c == 'f' then Some('\U{0C}')
    else if c == 'n' then Some('\n')
    else if c == 'r' then Some('\r')
    else if c == 't' then Some('\t')
    else None
  }

  function Prepend(c: Option<char>, rest: Option<string>): Option<string> {
    if c.Some? && rest.Some? then Some([c.value] + rest.value) else None
  }

  /** The content of a JSON string between its quotes; `None` if it is not one. */
  function Unescaped(t: string): Option<string> {
    if t == "" then Some("")
    else if t[0] == '"' || t[0] < ' ' then None
    else if t[0] != '\\' then Prepend(Some(t[0]), Unescaped(t[1..]))
    else if |t| == 1 then None
    else if t[1] != 'u' then Prepend(Simple(t[1]), Unescaped(t[2..]))
    else if |t| < 6 then None
    else Prepend(FourHex(t[2..6]), Unescaped(t[6..]))
  }

  lemma {:induction false} HexReadsBack(n: nat)
    requires n < 16
    ensures HexValue(Hex(n)) == Some(n)
  {
    assert "0123456789ABCDEF"[n] == if n < 10 then ('0' as int + n) as char else ('A' as int + n - 10) as char;
  }

  lemma {:induction false} ReadOneEscape(c: char, rest: string)
    requires c == '\\' || c == '"' || '\0' < c < ' '
    ensures Unescaped(EscapeOf(c) + rest) == Prepend(Some(c), Unescaped(rest))
  {
    var e := EscapeOf(c);
    var t := e + rest;
    if |e| == 2 {
      assert t[0] == '\\' && t[1] == e[1] && t[2..] == rest && e[1] != 'u';
      assert Simple(e[1]) == Some(c);
    } else {
      var code := c as int;
      assert t[0] == '\\' && t[1] == 'u' && t[2..6] == ['0', '0', Hex(code / 16), Hex(code % 16)] && t[6..] == rest;
      HexReadsBack(code / 16);
      HexReadsBack(code % 16);
      assert code / 16 * 16 + code % 16 == code;
    }
  }

  /** The chain of substitutions yields a valid JSON string body that reads back as the original,
      with no control character left in it. */
  lemma {:induction false} EscapeRoundTrip(s: string)
    requires '\0' !in s
    ensures Unescaped(Escaped(s)) == Some(s)
    ensures forall x :: x in Escaped(s) ==> x >= ' '
  {
    if s == "" {
    } else {
      EscapeRoundTrip(s[1..]);
      var c, rest := s[0], Escaped(s[1..]);
      assert s == [c] + s[1..];
      if Turn(c) < 34 {
        ReadOneEscape(c, rest);
        EscapeIsInert(c);
        assert Escaped(s) == EscapeOf(c) + rest;
      } else {
        assert Escaped(s) == [c] + rest && ([c] + rest)[1..] == rest;
      }
    }
  }

  /** With a NUL left in it, which the chain cannot replace, the result is no JSON string body. */
  lemma {:induction false} NulStaysRaw(s: string)
    requires '\0' in s
    ensures Unescaped(Escaped(s)) == None
  {
    if s[0] == '\0' {
      assert Escaped(s)[0] == '\0';
    } else {
      NulStaysRaw(s[1..]);
      var c, rest := s[0], Escaped(s[1..]);
      if Turn(c) < 34 {
        ReadOneEscape(c, rest);
        assert Escaped(s) == EscapeOf(c) + rest;
      } else {
        assert Escaped(s) == [c] + rest && ([c] + rest)[1..] == rest;
      }
    }
  }

  lemma {:induction false} ShortEscape(t: string)
    requires |t| >= 2 && t[0] == '\\'
    ensures t[1] != 'u' && Simple(t[1]).Some? ==> |EscapedUpTo([Simple(t[1]).value], 34)| <= 2
    ensures t[1] == 'u' && |t| >= 6 && FourHex(t[2..6]).Some? ==>
      |EscapedUpTo([FourHex(t[2..6]).value], 34)| <= 6
  {
    assert forall c: char {:trigger EscapedUpTo([c], 34)} ::
      [c][1..] == "" && EscapedUpTo("", 34) == "" &&
      EscapedUpTo([c], 34) == (if Turn(c) < 34 then EscapeOf(c) else [c]) + "";
  }

  /** Of all JSON texts for a string the result is a shortest one. */
  lemma {:induction false} EscapeIsShortest(s: string, t: string)
    requires Unescaped(t) == Some(s)
    ensures |Escaped(s)| <= |t|
    decreases |t|
  {
    if t == "" {
    } else {
      EscapedUnfold(s, 34);
      if t[0] != '\\' {
        EscapeIsShortest(s[1..], t[1..]);
        assert [t[0]][1..] == "" && EscapedUpTo("", 34) == "";
      } else {
        ShortEscape(t);
        EscapeIsShortest(s[1..], if t[1] != 'u' then t[2..] else t[6..]);
      }
    }
  }

  /** The digits of its escapes are written in upper case. */
  lemma {:induction false} UpperCaseDigits(c: char)
    requires '\0' < c < ' ' && |EscapeOf(c)| == 6
    ensures forall k :: 2 <= k < 6 ==> '0' <= EscapeOf(c)[k] <= '9' || 'A' <= EscapeOf(c)[k] <= 'F'
  {
    HexReadsBack(c as int / 16);
    HexReadsBack(c as int % 16);
    assert forall n: nat :: n < 16 ==> '0' <= Hex(n) <= '9' || 'A' <= Hex(n) <= 'F';
  }
}
