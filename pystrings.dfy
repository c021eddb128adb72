/** The Python `str` builtins the evaluator relies on: `isspace`, `strip`,
    `lstrip`, `rstrip`, `splitlines`, `'\n'.join`, `startswith`, `endswith`,
    `split(' ')` and `str(int)`, with their character classes written out. */
module PyStrings {

  /** `c.isspace()`: the characters Python's `str.strip()` removes. */
  predicate IsSpace(c: char) {
    || c == ' '
    || ('\t' <= c <= '\r')
    || ('\U{1c}' <= c <= '\U{1f}')
    || c == '\U{85}' || c == '\U{a0}' || c == '\U{1680}'
    || ('\U{2000}' <= c <= '\U{200a}')
    || c == '\U{2028}' || c == '\U{2029}' || c == '\U{202f}'
    || c == '\U{205f}' || c == '\U{3000}'
  }

  /** The line boundaries of Python's `str.splitlines()`
      (`\r\n` is handled as one boundary by `BreakWidth`). */
  predicate IsLineBreak(c: char) {
    || ('\n' <= c <= '\r')
    || ('\U{1c}' <= c <= '\U{1e}')
    || c == '\U{85}' || c == '\U{2028}' || c == '\U{2029}'
  }

  lemma LineBreakIsSpace(c: char)
    ensures IsLineBreak(c) ==> IsSpace(c)
  {
  }

  predicate AllSpace(s: string) {
    forall i :: 0 <= i < |s| ==> IsSpace(s[i])
  }

  predicate NoBreaks(s: string) {
    forall i :: 0 <= i < |s| ==> !IsLineBreak(s[i])
  }

  /** `s.lstrip()`: the longest suffix of `s` that does not start with whitespace. */
  function LStrip(s: string): (r: string)
    ensures |r| <= |s| && r == s[|s| - |r|..]
    ensures r == [] || !IsSpace(r[0])
    ensures forall i :: 0 <= i < |s| - |r| ==> IsSpace(s[i])
    ensures r == [] <==> AllSpace(s)
  {
    if s != [] && IsSpace(s[0]) then LStrip(s[1..]) else s
  }

  /** `s.rstrip()`: the longest prefix of `s` that does not end with whitespace. */
  function RStrip(s: string): (r: string)
    ensures |r| <= |s| && r == s[..|r|]
    ensures r == [] || !IsSpace(r[|r| - 1])
    ensures forall i :: |r| <= i < |s| ==> IsSpace(s[i])
    ensures r == [] <==> AllSpace(s)
  {
    if s != [] && IsSpace(s[|s| - 1]) then RStrip(s[..|s| - 1]) else s
  }

  /** `s.strip()`. */
  function Strip(s: string): (r: string)
    ensures r == [] || (!IsSpace(r[0]) && !IsSpace(r[|r| - 1]))
    ensures r == [] <==> AllSpace(s)
  {
    var l := LStrip(s);
    assert l != [] ==> l[0] == s[|s| - |l|] && !IsSpace(l[0]);
    RStrip(l)
  }

  /** The index of the first line boundary of `s`, or `|s|` when there is none. */
  function FirstBreak(s: string): (i: nat)
    ensures i <= |s|
    ensures i < |s| ==> IsLineBreak(s[i])
    ensures forall j :: 0 <= j < i ==> !IsLineBreak(s[j])
  {
    if s == [] then 0
    else if IsLineBreak(s[0]) then 0
    else 1 + FirstBreak(s[1..])
  }

  /** `\r\n` is one boundary of two characters; every other boundary is one character. */
  function BreakWidth(s: string, i: nat): (w: nat)
    requires i < |s|
    ensures w == 1 || w == 2
    ensures i + w <= |s|
  {
    if s[i] == '\r' && i + 1 < |s| && s[i + 1] == '\n' then 2 else 1
  }

  /** `s.splitlines()`: the lines of `s`, without their boundaries; a final
      boundary does not open an empty last line. */
  function SplitLines(s: string): (lines: seq<string>)
    ensures forall k :: 0 <= k < |lines| ==> NoBreaks(lines[k])
    decreases |s|
  {
    if s == [] then []
    else
      var i := FirstBreak(s);
      if i == |s| then [s]
      else [s[..i]] + SplitLines(s[i + BreakWidth(s, i)..])
  }

  /** `sep.join(parts)`. */
  function Join(sep: string, parts: seq<string>): string
  {
    if |parts| == 0 then ""
    else if |parts| == 1 then parts[0]
    else parts[0] + sep + Join(sep, parts[1..])
  }

  /** `s[i:]`: empty when `i` is past the end. */
  function SliceFrom(s: string, i: nat): string
  {
    if i <= |s| then s[i..] else []
  }

  /** `s.startswith(prefix)`. */
  predicate StartsWith(s: string, prefix: string) {
    |prefix| <= |s| && s[..|prefix|] == prefix
  }

  /** `s.endswith(suffix)`. */
  predicate EndsWith(s: string, suffix: string) {
    |suffix| <= |s| && s[|s| - |suffix|..] == suffix
  }

  /** `s.split(sep)` for a one-character separator: every field, empty ones included. */
  function Split(s: string, sep: char): (fields: seq<string>)
    ensures |fields| >= 1
    ensures forall k :: 0 <= k < |fields| ==> sep !in fields[k]
    decreases |s|
  {
    if sep in s then
      var i := IndexOf(s, sep);
      [s[..i]] + Split(s[i + 1..], sep)
    else [s]
  }

  /** `sub` occurs in `s` at index `j`. */
  predicate OccursAt(s: string, sub: string, j: int) {
    0 <= j && j + |sub| <= |s| && s[j..j + |sub|] == sub
  }

  /** `sub in s`. */
  predicate Contains(s: string, sub: string) {
    exists j :: 0 <= j <= |s| && OccursAt(s, sub, j)
  }

  /** `s.find(sub, k)`: the first index at or after `k` where `sub` occurs, or -1. */
  function FindFrom(s: string, sub: string, k: nat): (i: int)
    ensures i == -1 || (k <= i && OccursAt(s, sub, i))
    ensures forall j :: k <= j && (i == -1 || j < i) ==> !OccursAt(s, sub, j)
    decreases |s| - k
  {
    if k + |sub| > |s| then -1
    else if s[k..k + |sub|] == sub then k
    else FindFrom(s, sub, k + 1)
  }

  /** `s.find(sub)`. */
  function Find(s: string, sub: string): (i: int)
    ensures i == -1 <==> !Contains(s, sub)
    ensures i >= 0 ==> OccursAt(s, sub, i) && forall j :: 0 <= j < i ==> !OccursAt(s, sub, j)
  {
    FindFrom(s, sub, 0)
  }

  /** `s.split(sep)[1]` for a separator that occurs in `s`: the text between
      its first occurrence and the next one, or the end. */
  function SecondField(s: string, sep: string): (f: string)
    requires sep != [] && Contains(s, sep)
    ensures !Contains(f, sep)
  {
    var rest := s[Find(s, sep) + |sep|..];
    var j := Find(rest, sep);
    if j < 0 then rest
    else
      assert forall k :: OccursAt(rest[..j], sep, k) ==> OccursAt(rest, sep, k) by {
        forall k | OccursAt(rest[..j], sep, k)
          ensures OccursAt(rest, sep, k)
        {
          OccursInPrefix(rest, j, sep, k);
        }
      }
      rest[..j]
  }

  /** An occurrence in a prefix is an occurrence in the whole. */
  lemma OccursInPrefix(t: string, j: nat, sub: string, k: int)
    requires j <= |t| && OccursAt(t[..j], sub, k)
    ensures OccursAt(t, sub, k)
  {
    assert t[..j][k..k + |sub|] == t[k..k + |sub|];
  }

  /** The first index of `c` in `s`. */
  function IndexOf(s: string, c: char): (i: nat)
    requires c in s
    ensures i < |s| && s[i] == c && c !in s[..i]
  {
    if s[0] == c then 0 else 1 + IndexOf(s[1..], c)
  }

  /** The decimal digits of `n`, as `str(n)` writes them for n >= 0. */
  function NatToString(n: nat): (s: string)
    ensures |s| >= 1
    ensures forall i :: 0 <= i < |s| ==> '0' <= s[i] <= '9'
  {
    var d := [(n % 10) as char + '0'];
    assert (n % 10) as char + '0' <= '9';
    if n < 10 then d else NatToString(n / 10) + d
  }

  /** `str(n)` for any integer. */
  function IntToString(n: int): (s: string)
    ensures |s| >= 1
    ensures n < 0 <==> s[0] == '-'
  {
    if n < 0 then "-" + NatToString(-n) else NatToString(n)
  }

  // ---------------------------------------------------------------------------
  // Lemmas about strip, splitlines and join

  /** Whitespace before a string is invisible to `lstrip`. */
  lemma {:induction false} LStripSkipsSpace(u: string, s: string)
    requires AllSpace(u)
    ensures LStrip(u + s) == LStrip(s)
  {
    if u != [] {
      assert (u + s)[0] == u[0] && IsSpace(u[0]);
      assert (u + s)[1..] == u[1..] + s;
      assert LStrip(u + s) == LStrip(u[1..] + s);
      LStripSkipsSpace(u[1..], s);
    } else {
      assert u + s == s;
    }
  }

  /** Whitespace after a string is invisible to `rstrip`. */
  lemma {:induction false} RStripSkipsSpace(s: string, w: string)
    requires AllSpace(w)
    ensures RStrip(s + w) == RStrip(s)
  {
    if w != [] {
      var w' := w[..|w| - 1];
      assert (s + w)[|s + w| - 1] == w[|w| - 1] && IsSpace(w[|w| - 1]);
      assert (s + w)[..|s + w| - 1] == s + w';
      assert RStrip(s + w) == RStrip(s + w');
      RStripSkipsSpace(s, w');
    } else {
      assert s + w == s;
    }
  }

  /** `lstrip` of a string followed by more text. */
  lemma {:induction false} LStripAppend(s: string, w: string)
    ensures LStrip(s + w) == if LStrip(s) == [] then LStrip(w) else LStrip(s) + w
  {
    if s == [] {
      assert s + w == w;
    } else {
      assert (s + w)[0] == s[0];
      assert (s + w)[1..] == s[1..] + w;
      if IsSpace(s[0]) {
        LStripAppend(s[1..], w);
      }
    }
  }

  /** Surrounding whitespace does not change what `strip` keeps. */
  lemma StripIgnoresSurroundingSpace(u: string, s: string, w: string)
    requires AllSpace(u) && AllSpace(w)
    ensures Strip(u + s + w) == Strip(s)
  {
    assert u + s + w == u + (s + w);
    LStripSkipsSpace(u, s + w);
    LStripAppend(s, w);
    if LStrip(s) != [] {
      RStripSkipsSpace(LStrip(s), w);
    }
  }

  /** `strip` is `lstrip` then `rstrip`. */
  lemma StripIsLR(x: string)
    ensures Strip(x) == RStrip(LStrip(x))
  {
  }

  /** A string with no whitespace at either end is its own `strip`. */
  lemma StripUnchanged(s: string)
    requires s == [] || (!IsSpace(s[0]) && !IsSpace(s[|s| - 1]))
    ensures Strip(s) == s
  {
  }

  /** A string without a trailing whitespace character is its own `rstrip`. */
  lemma RStripUnchanged(s: string)
    requires s == [] || !IsSpace(s[|s| - 1])
    ensures RStrip(s) == s
  {
  }

  /** The first boundary of `a + [c] + b` is `c` when `a` has none. */
  lemma FirstBreakAfter(a: string, c: char, b: string)
    requires NoBreaks(a) && IsLineBreak(c)
    ensures FirstBreak(a + [c] + b) == |a|
  {
    var s := a + [c] + b;
    assert s[|a|] == c;
    assert forall j :: 0 <= j < |a| ==> s[j] == a[j];
  }

  /** A string without boundaries is its own single line. */
  lemma SplitLinesOneLine(s: string)
    requires s != [] && NoBreaks(s)
    ensures SplitLines(s) == [s]
  {
    assert FirstBreak(s) == |s|;
  }

  /** `splitlines` undoes `'\n'.join` on lines without boundaries whose last line
      is not empty (an empty last line would be lost, as Python loses it). */
  lemma {:induction false} SplitJoin(lines: seq<string>)
    requires forall k :: 0 <= k < |lines| ==> NoBreaks(lines[k])
    requires lines == [] || lines[|lines| - 1] != []
    ensures SplitLines(Join("\n", lines)) == lines
  {
    if |lines| == 1 {
      SplitLinesOneLine(lines[0]);
    } else if |lines| > 1 {
      var rest := Join("\n", lines[1..]);
      var s := Join("\n", lines);
      assert s == lines[0] + ['\n'] + rest;
      FirstBreakAfter(lines[0], '\n', rest);
      assert BreakWidth(s, |lines[0]|) == 1;
      assert s[..|lines[0]|] == lines[0];
      assert s[|lines[0]| + 1..] == rest;
      SplitJoin(lines[1..]);
    }
  }

  /** The first line of a string that does not start with a boundary
      starts with that string's first character. */
  lemma SplitLinesFirst(s: string)
    requires s != [] && !IsLineBreak(s[0])
    ensures |SplitLines(s)| >= 1 && |SplitLines(s)[0]| >= 1
    ensures SplitLines(s)[0][0] == s[0]
  {
  }

  /** One unfolding of `SplitLines` at a boundary. */
  lemma {:induction false} SplitLinesStep(s: string)
    requires FirstBreak(s) < |s|
    ensures var i := FirstBreak(s);
      SplitLines(s) == [s[..i]] + SplitLines(s[i + BreakWidth(s, i)..])
  {
  }

  /** A string that does not end with a boundary has text after its first boundary. */
  lemma {:induction false} BreakBeforeEnd(s: string)
    requires s != [] && !IsLineBreak(s[|s| - 1])
    requires FirstBreak(s) < |s|
    ensures FirstBreak(s) + BreakWidth(s, FirstBreak(s)) < |s|
  {
    var i := FirstBreak(s);
    assert i != |s| - 1;
    if BreakWidth(s, i) == 2 {
      assert IsLineBreak(s[i + 1]);
    }
  }

  /** The last line of a string that does not end with a boundary
      ends with that string's last character. */
  lemma {:induction false} SplitLinesLast(s: string)
    requires s != [] && !IsLineBreak(s[|s| - 1])
    ensures |SplitLines(s)| >= 1
    ensures var last := SplitLines(s)[|SplitLines(s)| - 1];
      |last| >= 1 && last[|last| - 1] == s[|s| - 1]
    decreases |s|
  {
    LastLineEnds(s);
  }

  /** The last line of `s` is non-empty and ends with `c`. */
  predicate LastLineEndsWith(s: string, c: char) {
    var lines := SplitLines(s);
    && |lines| >= 1
    && |lines[|lines| - 1]| >= 1
    && lines[|lines| - 1][|lines[|lines| - 1]| - 1] == c
  }

  /** `SplitLinesLast`, by induction on the boundaries of `s`. */
  lemma {:induction false} LastLineEnds(s: string)
    requires s != [] && !IsLineBreak(s[|s| - 1])
    ensures LastLineEndsWith(s, s[|s| - 1])
    decreases |s|
  {
    var i := FirstBreak(s);
    if i == |s| {
      SplitLinesWhole(s);
    } else {
      BreakBeforeEnd(s);
      var k := i + BreakWidth(s, i);
      SliceKeepsLast(s, k);
      LastLineEnds(s[k..]);
      LastLineOfRest(s, s[k..]);
      SameLastLine(s, s[k..], s[|s| - 1]);
    }
  }

  /** Two texts with the same last line agree on how it ends. */
  lemma SameLastLine(s: string, rest: string, c: char)
    requires |SplitLines(s)| >= 1 && |SplitLines(rest)| >= 1
    requires SplitLines(s)[|SplitLines(s)| - 1] == SplitLines(rest)[|SplitLines(rest)| - 1]
    requires LastLineEndsWith(rest, c)
    ensures LastLineEndsWith(s, c)
  {
  }

  /** A suffix that starts before the end ends like the whole. */
  lemma SliceKeepsLast(s: string, k: nat)
    requires k < |s|
    ensures |s[k..]| > 0 && s[k..][|s[k..]| - 1] == s[|s| - 1]
  {
  }

  /** Only the empty string has no lines. */
  lemma SplitLinesEmpty(s: string)
    ensures SplitLines(s) == [] <==> s == []
  {
  }

  /** A non-empty string without a boundary is one line. */
  lemma SplitLinesWhole(s: string)
    requires s != [] && FirstBreak(s) == |s|
    ensures SplitLines(s) == [s]
  {
  }

  /** After a first boundary, the last line is the last line of the rest. */
  lemma {:induction false} LastLineOfRest(s: string, rest: string)
    requires FirstBreak(s) < |s|
    requires rest == s[FirstBreak(s) + BreakWidth(s, FirstBreak(s))..]
    requires |SplitLines(rest)| >= 1
    ensures |SplitLines(s)| >= 1
    ensures SplitLines(s)[|SplitLines(s)| - 1] == SplitLines(rest)[|SplitLines(rest)| - 1]
  {
    SplitLinesStep(s);
    LastOfCons(SplitLines(s), s[..FirstBreak(s)], SplitLines(rest));
  }

  lemma LastOfCons<T>(ys: seq<T>, x: T, xs: seq<T>)
    requires ys == [x] + xs && |xs| >= 1
    ensures |ys| >= 1 && ys[|ys| - 1] == xs[|xs| - 1]
  {
  }

  /** `'\n'.join` starts with the first character of its first part. */
  lemma JoinFirst(parts: seq<string>)
    requires |parts| >= 1 && |parts[0]| >= 1
    ensures |Join("\n", parts)| >= 1 && Join("\n", parts)[0] == parts[0][0]
  {
  }

  /** `'\n'.join` ends with the last character of its last part. */
  lemma {:induction false} JoinLast(parts: seq<string>)
    requires |parts| >= 1 && |parts[|parts| - 1]| >= 1
    ensures var j := Join("\n", parts);
      |j| >= 1 && j[|j| - 1] == parts[|parts| - 1][|parts[|parts| - 1]| - 1]
  {
    if |parts| > 1 {
      JoinLast(parts[1..]);
    }
  }

  /** `'\n'.join` of no parts, and only of no parts or one empty part, is empty. */
  lemma JoinEmpty(parts: seq<string>)
    requires parts == [] || parts[|parts| - 1] != []
    ensures Join("\n", parts) == [] <==> parts == []
  {
    if parts != [] {
      JoinLast(parts);
    }
  }

  /** `rstrip` of a text ending in a part that is not all whitespace only
      touches that part. */
  lemma RStripAppend(s: string, t: string)
    requires !AllSpace(t)
    ensures RStrip(s + t) == s + RStrip(t)
  {
    var r := RStrip(t);
    var w := t[|r|..];
    assert t == r + w;
    assert AllSpace(w) by {
      forall i | 0 <= i < |w|
        ensures IsSpace(w[i])
      {
        assert w[i] == t[|r| + i];
      }
    }
    assert r != [] && !IsSpace(r[|r| - 1]);
    var sr := s + r;
    assert sr[|sr| - 1] == r[|r| - 1];
    assert s + t == sr + w;
    RStripSkipsSpace(sr, w);
    RStripUnchanged(sr);
  }

  /** `rstrip` is idempotent. */
  lemma RStripIdempotent(x: string)
    ensures RStrip(RStrip(x)) == RStrip(x)
  {
    RStripUnchanged(RStrip(x));
  }

  /** Right-stripping first does not change what `strip` keeps. */
  lemma StripAfterRStrip(x: string)
    ensures RStrip(LStrip(RStrip(x))) == RStrip(LStrip(x))
  {
    var r := RStrip(x);
    var w := x[|r|..];
    assert x == r + w;
    assert AllSpace(w) by {
      forall i | 0 <= i < |w|
        ensures IsSpace(w[i])
      {
        assert w[i] == x[|r| + i];
      }
    }
    LStripAppend(r, w);
    var l := LStrip(r);
    if l != [] {
      assert LStrip(x) == l + w;
      RStripSkipsSpace(l, w);
    } else {
      assert LStrip(x) == LStrip(w) == [];
    }
  }

  /** What `lstrip` and `rstrip` keep of a line without boundaries has none. */
  lemma {:induction false} StrippedNoBreaks(x: string)
    requires NoBreaks(x)
    ensures NoBreaks(LStrip(x)) && NoBreaks(RStrip(x))
  {
    var l, r := LStrip(x), RStrip(x);
    forall i | 0 <= i < |l|
      ensures !IsLineBreak(l[i])
    {
      assert l[i] == x[|x| - |l| + i];
    }
    forall i | 0 <= i < |r|
      ensures !IsLineBreak(r[i])
    {
      assert r[i] == x[i];
    }
  }

  /** `'\n'.join` of two non-empty runs of parts. */
  lemma {:induction false} JoinAppend(a: seq<string>, b: seq<string>)
    requires a != [] && b != []
    ensures Join("\n", a + b) == Join("\n", a) + "\n" + Join("\n", b)
  {
    if |a| == 1 {
      assert (a + b)[0] == a[0] && (a + b)[1..] == b;
    } else {
      assert (a + b)[0] == a[0] && (a + b)[1..] == a[1..] + b;
      JoinAppend(a[1..], b);
    }
  }

  /** `'\n'.join` of a first part followed by more parts. */
  lemma JoinCons(x: string, ys: seq<string>)
    requires ys != []
    ensures Join("\n", [x] + ys) == x + ("\n" + Join("\n", ys))
  {
    assert ([x] + ys)[0] == x && ([x] + ys)[1..] == ys;
  }

  /** `'\n'.join` of whitespace-only parts is whitespace only. */
  lemma {:induction false} JoinAllSpace(parts: seq<string>)
    requires forall k :: 0 <= k < |parts| ==> AllSpace(parts[k])
    ensures AllSpace(Join("\n", parts))
  {
    if |parts| > 1 {
      JoinAllSpace(parts[1..]);
      var rest := Join("\n", parts[1..]);
      var j := parts[0] + "\n" + rest;
      forall i | 0 <= i < |j|
        ensures IsSpace(j[i])
      {
        if i < |parts[0]| {
          assert j[i] == parts[0][i];
        } else if i > |parts[0]| {
          assert j[i] == rest[i - |parts[0]| - 1];
        }
      }
    }
  }
}
