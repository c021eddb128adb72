/** The result comparator of the grading path: output normalisation, the
    pass/fail decision and the count-based percentage score. */
module Comparator {
  import opened PyStrings

  /** Each line with its trailing whitespace removed (`line.rstrip()` per line). */
  function RStripLines(lines: seq<string>): seq<string>
  {
    seq(|lines|, k requires 0 <= k < |lines| => RStrip(lines[k]))
  }

  /** The normal form both sides are reduced to: strip the whole text, split it
      into lines, right-strip every line and join the lines with `\n`. */
  function Normalize(s: string): string
  {
    Join("\n", RStripLines(SplitLines(Strip(s))))
  }

  /** The normal form is empty exactly for an all-whitespace text, and
      otherwise starts and ends with a non-whitespace character. */
  lemma NormalizeEnds(s: string)
    ensures Normalize(s) == [] <==> AllSpace(s)
    ensures Normalize(s) == [] || (!IsSpace(Normalize(s)[0]) && !IsSpace(Normalize(s)[|Normalize(s)| - 1]))
  {
    var t := Strip(s);
    var lines := SplitLines(t);
    var m := RStripLines(lines);
    var r := Join("\n", m);
    NormalizeGivesNormalLines(s);
    NormalJoinStripped(m);
    JoinEmpty(m);
    assert |m| == |lines|;
    SplitLinesEmpty(t);
    assert r == [] <==> t == [];
    assert Strip(r) == r;
  }

  /** `compare_outputs`: the outputs match exactly when their normal forms
      are equal. */
  predicate CompareOutputs(output: string, expected: string)
  {
    Normalize(output) == Normalize(expected)
  }

  /** An output that is only whitespace matches exactly the expected outputs
      that are only whitespace. */
  lemma BlankOutputMatchesBlank(output: string, expected: string)
    requires AllSpace(output)
    ensures CompareOutputs(output, expected) <==> AllSpace(expected)
  {
    NormalizeEnds(output);
    NormalizeEnds(expected);
  }

  /** Lines none of which holds a line boundary or ends with whitespace. */
  predicate CleanLines(lines: seq<string>)
  {
    && (forall k :: 0 <= k < |lines| ==> NoBreaks(lines[k]))
    && (forall k :: 0 <= k < |lines| ==> lines[k] == [] || !IsSpace(lines[k][|lines[k]| - 1]))
  }

  /** The lines a normal form is made of: clean lines, the first starting with
      a non-whitespace character and the last not empty. */
  predicate NormalLines(lines: seq<string>)
  {
    && CleanLines(lines)
    && (lines == [] || (lines[0] != [] && !IsSpace(lines[0][0]) && lines[|lines| - 1] != []))
  }

  /** Joining normal lines gives a text that normalisation leaves unchanged. */
  lemma {:induction false} NormalLinesFixed(lines: seq<string>)
    requires NormalLines(lines)
    ensures Normalize(Join("\n", lines)) == Join("\n", lines)
  {
    NormalJoinStripped(lines);
    SplitJoin(lines);
    NormalLinesRStripped(lines);
  }

  /** The join of normal lines neither starts nor ends with whitespace. */
  lemma NormalJoinStripped(lines: seq<string>)
    requires NormalLines(lines)
    ensures Strip(Join("\n", lines)) == Join("\n", lines)
  {
    if lines != [] {
      JoinFirst(lines);
      JoinLast(lines);
    }
    StripUnchanged(Join("\n", lines));
  }

  /** Normal lines have nothing to right-strip. */
  lemma NormalLinesRStripped(lines: seq<string>)
    requires NormalLines(lines)
    ensures RStripLines(lines) == lines
  {
    forall k | 0 <= k < |lines|
      ensures RStrip(lines[k]) == lines[k]
    {
      RStripUnchanged(lines[k]);
    }
  }

  /** Right-stripping lines without boundaries gives lines without boundaries
      and without trailing whitespace. */
  lemma {:induction false} RStripLinesClean(lines: seq<string>)
    requires forall k :: 0 <= k < |lines| ==> NoBreaks(lines[k])
    ensures CleanLines(RStripLines(lines))
  {
    var m := RStripLines(lines);
    forall k | 0 <= k < |m|
      ensures NoBreaks(m[k])
    {
      assert m[k] == lines[k][..|m[k]|];
    }
  }

  /** The stripped text's first and last characters survive as the first
      character of the first line and the last character of the last line. */
  lemma {:induction false} RStripLinesEnds(t: string)
    requires t != [] && !IsSpace(t[0]) && !IsSpace(t[|t| - 1])
    ensures var m := RStripLines(SplitLines(t));
      m != [] && m[0] != [] && !IsSpace(m[0][0]) && m[|m| - 1] != []
  {
    LineBreakIsSpace(t[0]);
    LineBreakIsSpace(t[|t| - 1]);
    SplitLinesFirst(t);
    SplitLinesLast(t);
    RStripLinesOuter(SplitLines(t));
  }

  /** Lines whose first starts and whose last ends with a non-space keep
      those characters once every line is right-stripped. */
  lemma RStripLinesOuter(lines: seq<string>)
    requires lines != [] && lines[0] != [] && !IsSpace(lines[0][0])
    requires var last := lines[|lines| - 1]; last != [] && !IsSpace(last[|last| - 1])
    ensures var m := RStripLines(lines);
      m != [] && m[0] != [] && !IsSpace(m[0][0]) && m[|m| - 1] != []
  {
    var m := RStripLines(lines);
    var first, last := lines[0], lines[|lines| - 1];
    assert |m| == |lines|;
    assert m[0] == RStrip(first) && m[|m| - 1] == RStrip(last);
    RStripUnchanged(last);
    RStripKeepsFirst(first);
  }

  /** Right-stripping a text that starts with a non-whitespace character
      keeps that character first. */
  lemma RStripKeepsFirst(x: string)
    requires x != [] && !IsSpace(x[0])
    ensures RStrip(x) != [] && RStrip(x)[0] == x[0]
  {
    assert !AllSpace(x);
  }

  /** Every normal form is the join of normal lines. */
  lemma {:induction false} NormalizeGivesNormalLines(s: string)
    ensures NormalLines(RStripLines(SplitLines(Strip(s))))
  {
    var t := Strip(s);
    var lines := SplitLines(t);
    var m := RStripLines(lines);
    RStripLinesClean(lines);
    if t != [] {
      RStripLinesEnds(t);
    } else {
      assert m == [];
    }
  }

  /** Normalisation is idempotent. */
  lemma NormalizeIdempotent(s: string)
    ensures Normalize(Normalize(s)) == Normalize(s)
  {
    NormalizeGivesNormalLines(s);
    NormalLinesFixed(RStripLines(SplitLines(Strip(s))));
  }

  /** Comparison is reflexive, symmetric and transitive: both sides go
      through the same normalisation. */
  lemma CompareIsEquivalence(a: string, b: string, c: string)
    ensures CompareOutputs(a, a)
    ensures CompareOutputs(a, b) ==> CompareOutputs(b, a)
    ensures CompareOutputs(a, b) && CompareOutputs(b, c) ==> CompareOutputs(a, c)
  {
  }

  /** An output matches exactly the texts its normal form matches. */
  lemma CompareWithNormalForm(output: string, expected: string)
    ensures CompareOutputs(Normalize(output), expected) <==> CompareOutputs(output, expected)
  {
    NormalizeIdempotent(output);
  }

  /** Two texts already in normal form match only when they are identical:
      content, case and inner whitespace all count. */
  lemma CompareNormalTexts(a: seq<string>, b: seq<string>)
    requires NormalLines(a) && NormalLines(b)
    ensures CompareOutputs(Join("\n", a), Join("\n", b)) <==> Join("\n", a) == Join("\n", b)
  {
    NormalLinesFixed(a);
    NormalLinesFixed(b);
  }

  /** Whitespace before or after the whole output is ignored. */
  lemma CompareIgnoresSurroundingSpace(u: string, s: string, w: string, expected: string)
    requires AllSpace(u) && AllSpace(w)
    ensures CompareOutputs(u + s + w, expected) <==> CompareOutputs(s, expected)
  {
    StripIgnoresSurroundingSpace(u, s, w);
  }

  /** "a\nb \n" matches "a\nb": a trailing blank and a final newline are ignored. */
  lemma TrailingWhitespaceIgnored()
    ensures CompareOutputs("a\nb \n", "a\nb")
  {
    assert AllSpace(" \n");
    assert "a\nb \n" == "" + "a\nb" + " \n";
    CompareIgnoresSurroundingSpace("", "a\nb", " \n", "a\nb");
  }

  /** "a\nb" does not match "a\nB": case matters. */
  lemma CaseMatters()
    ensures !CompareOutputs("a\nb", "a\nB")
  {
    var a, b := ["a", "b"], ["a", "B"];
    assert Join("\n", a) == "a\nb";
    assert Join("\n", b) == "a\nB";
    assert NormalLines(a) && NormalLines(b);
    CompareNormalTexts(a, b);
  }

  // ---------------------------------------------------------------------------
  // Normalisation line by line

  /** Text made of whitespace-only lines normalises to nothing. */
  lemma {:induction false} BlankLinesNormalizeEmpty(ls: seq<string>)
    requires forall k :: 0 <= k < |ls| ==> AllSpace(ls[k])
    ensures Normalize(Join("\n", ls)) == ""
  {
    JoinAllSpace(ls);
  }

  /** `'\n'.join` of lines with whitespace-only lines before index `i` and
      from index `j` on is the join of the lines in between, surrounded by
      whitespace. */
  lemma {:induction false} JoinAroundCore(ls: seq<string>, i: nat, j: nat) returns (u: string, w: string)
    requires i < j <= |ls|
    requires forall k :: 0 <= k < i ==> AllSpace(ls[k])
    requires forall k :: j <= k < |ls| ==> AllSpace(ls[k])
    ensures AllSpace(u) && AllSpace(w) && Join("\n", ls) == u + Join("\n", ls[i..j]) + w
  {
    var before, core, after, tail := ls[..i], ls[i..j], ls[j..], ls[i..];
    assert tail == core + after;
    assert ls == before + tail;
    w := BlankTail(core, after);
    u := BlankHead(before, tail);
  }

  /** Blank lines before a join only add whitespace in front of it. */
  lemma BlankHead(before: seq<string>, tail: seq<string>) returns (u: string)
    requires tail != []
    requires forall k :: 0 <= k < |before| ==> AllSpace(before[k])
    ensures AllSpace(u) && Join("\n", before + tail) == u + Join("\n", tail)
  {
    if before == [] {
      assert before + tail == tail;
      u := "";
    } else {
      JoinAllSpace(before);
      JoinAppend(before, tail);
      u := Join("\n", before) + "\n";
      AllSpaceAppendBreak(Join("\n", before));
    }
  }

  /** Blank lines after a join only add whitespace behind it. */
  lemma BlankTail(core: seq<string>, after: seq<string>) returns (w: string)
    requires core != []
    requires forall k :: 0 <= k < |after| ==> AllSpace(after[k])
    ensures AllSpace(w) && Join("\n", core + after) == Join("\n", core) + w
  {
    if after == [] {
      assert core + after == core;
      w := "";
    } else {
      JoinAllSpace(after);
      JoinAppend(core, after);
      w := "\n" + Join("\n", after);
      AllSpaceAppendBreak(Join("\n", after));
    }
  }

  /** A newline is whitespace, on either side of a blank text. */
  lemma AllSpaceAppendBreak(x: string)
    requires AllSpace(x)
    ensures AllSpace(x + "\n") && AllSpace("\n" + x)
  {
    assert IsSpace('\n');
  }

  /** `rstrip` of a join whose last line is not blank right-strips that line only. */
  lemma {:induction false} RStripJoin(n: seq<string>)
    requires n != [] && !AllSpace(n[|n| - 1])
    ensures RStrip(Join("\n", n)) == Join("\n", n[..|n| - 1] + [RStrip(n[|n| - 1])])
  {
    var k := |n| - 1;
    if k > 0 {
      assert n == n[..k] + [n[k]];
      JoinAppend(n[..k], [n[k]]);
      RStripAppend(Join("\n", n[..k]) + "\n", n[k]);
      JoinAppend(n[..k], [RStrip(n[k])]);
    }
  }

  /** The lines with the first one left-stripped. */
  function FirstLStripped(m: seq<string>): seq<string>
    requires m != []
  {
    [LStrip(m[0])] + m[1..]
  }

  /** The lines with the first one left-stripped and the last one right-stripped. */
  function EndsStripped(m: seq<string>): seq<string>
    requires m != []
  {
    var n := FirstLStripped(m);
    n[..|n| - 1] + [RStrip(n[|n| - 1])]
  }

  /** `strip` of the join of lines whose first and last are not blank:
      left-strip the first line and right-strip the last. */
  lemma {:induction false} StripCore(m: seq<string>)
    requires m != [] && !AllSpace(m[0]) && !AllSpace(m[|m| - 1])
    ensures Strip(Join("\n", m)) == Join("\n", EndsStripped(m))
  {
    var n := FirstLStripped(m);
    LStripJoin(m);
    if |m| > 1 {
      assert n[|n| - 1] == m[|m| - 1];
    }
    StripIsLR(Join("\n", m));
    RStripJoin(n);
  }

  /** `lstrip` of a join whose first line is not blank left-strips that line only. */
  lemma {:induction false} LStripJoin(m: seq<string>)
    requires m != [] && !AllSpace(m[0])
    ensures LStrip(m[0]) != [] && !AllSpace(LStrip(m[0]))
    ensures LStrip(Join("\n", m)) == Join("\n", FirstLStripped(m))
  {
    var l := LStrip(m[0]);
    assert !IsSpace(l[0]);
    if |m| > 1 {
      var rest := "\n" + Join("\n", m[1..]);
      assert m == [m[0]] + m[1..];
      JoinCons(m[0], m[1..]);
      LStripAppend(m[0], rest);
      JoinCons(l, m[1..]);
    }
  }

  /** No line holds a line boundary. */
  predicate LinesNoBreaks(lines: seq<string>) {
    forall k :: 0 <= k < |lines| ==> NoBreaks(lines[k])
  }

  /** `splitlines` undoes the join of lines without boundaries whose last is not empty. */
  lemma SplitJoinLines(lines: seq<string>)
    requires LinesNoBreaks(lines) && lines != [] && lines[|lines| - 1] != []
    ensures SplitLines(Join("\n", lines)) == lines
  {
    SplitJoin(lines);
  }

  /** The normal form read off a text's `strip`. */
  lemma NormalizeOfStripped(s: string, t: string)
    requires Strip(s) == t
    ensures Normalize(s) == Join("\n", RStripLines(SplitLines(t)))
  {
  }

  /** Whitespace around the whole text does not change its normal form. */
  lemma NormalizeIgnoresSurroundingSpace(u: string, s: string, w: string)
    requires AllSpace(u) && AllSpace(w)
    ensures Normalize(u + s + w) == Normalize(s)
  {
    StripIgnoresSurroundingSpace(u, s, w);
  }

  /** Right-stripping the last line before right-stripping every line changes nothing. */
  lemma RStripLinesLastStripped(n: seq<string>)
    requires n != []
    ensures RStripLines(n[..|n| - 1] + [RStrip(n[|n| - 1])]) == RStripLines(n)
  {
    RStripIdempotent(n[|n| - 1]);
  }

  /** The last line, once the first is left-stripped, is not blank. */
  lemma {:induction false} FirstLStrippedLast(m: seq<string>)
    requires m != [] && !AllSpace(m[0]) && !AllSpace(m[|m| - 1])
    ensures var n := FirstLStripped(m); !AllSpace(n[|n| - 1])
  {
    var n := FirstLStripped(m);
    if |m| == 1 {
      assert n[0] == LStrip(m[0]);
      assert !IsSpace(n[0][0]);
    } else {
      assert n[|n| - 1] == m[|m| - 1];
    }
  }

  /** Stripping the ends of lines without boundaries keeps them free of boundaries. */
  lemma {:induction false} EndsStrippedNoBreaks(m: seq<string>)
    requires m != [] && LinesNoBreaks(m)
    ensures LinesNoBreaks(EndsStripped(m))
  {
    var head := LStrip(m[0]);
    StrippedNoBreaks(m[0]);
    SingleNoBreaks(head);
    SliceNoBreaks(m, 1, |m|);
    ConcatNoBreaks([head], m[1..]);
    var n := FirstLStripped(m);
    assert n == [head] + m[1..];
    var last := |n| - 1;
    var tail := RStrip(n[last]);
    SliceNoBreaks(n, 0, last);
    StrippedNoBreaks(n[last]);
    SingleNoBreaks(tail);
    ConcatNoBreaks(n[..last], [tail]);
    assert EndsStripped(m) == n[..last] + [tail];
  }

  /** One line without boundaries. */
  lemma SingleNoBreaks(x: string)
    requires NoBreaks(x)
    ensures LinesNoBreaks([x])
  {
  }

  /** A slice of lines without boundaries has none. */
  lemma SliceNoBreaks(a: seq<string>, i: nat, j: nat)
    requires LinesNoBreaks(a) && i <= j <= |a|
    ensures LinesNoBreaks(a[i..j])
  {
    assert forall k :: 0 <= k < j - i ==> a[i..j][k] == a[i + k];
  }

  /** Two runs of lines without boundaries put together have none. */
  lemma ConcatNoBreaks(a: seq<string>, b: seq<string>)
    requires LinesNoBreaks(a) && LinesNoBreaks(b)
    ensures LinesNoBreaks(a + b)
  {
    assert forall k :: 0 <= k < |a| + |b| ==> (a + b)[k] == if k < |a| then a[k] else b[k - |a|];
  }

  /** Stripping the ends of lines whose last is not blank leaves the last line
      non-empty, and changes nothing once every line is right-stripped. */
  lemma {:induction false} EndsStrippedShape(m: seq<string>)
    requires m != [] && LinesNoBreaks(m) && !AllSpace(m[0]) && !AllSpace(m[|m| - 1])
    ensures var e := EndsStripped(m);
      && LinesNoBreaks(e) && e != [] && e[|e| - 1] != []
      && RStripLines(e) == RStripLines(FirstLStripped(m))
  {
    var n := FirstLStripped(m);
    var x := n[|n| - 1];
    FirstLStrippedLast(m);
    EndsStrippedNoBreaks(m);
    RStripIdempotent(x);
    RStripLinesLastStripped(n);
  }

  /** The normal form of lines whose first and last are not blank: the first
      left-stripped, each right-stripped, joined with `\n`. */
  lemma {:induction false} NormalizeNonBlankEnds(m: seq<string>)
    requires m != [] && LinesNoBreaks(m)
    requires !AllSpace(m[0]) && !AllSpace(m[|m| - 1])
    ensures Normalize(Join("\n", m)) == Join("\n", RStripLines(FirstLStripped(m)))
  {
    StripCore(m);
    EndsStrippedShape(m);
    SplitJoinLines(EndsStripped(m));
    NormalizeOfStripped(Join("\n", m), Join("\n", EndsStripped(m)));
  }

  /** The normal form of lines with a non-blank line at `i` and at `j - 1`,
      and only blank lines outside them: the lines from `i` to `j`, the first
      left-stripped, each right-stripped, joined with `\n`. */
  lemma {:induction false} NormalizeCore(ls: seq<string>, i: nat, j: nat)
    requires LinesNoBreaks(ls)
    requires i < j <= |ls|
    requires forall k :: 0 <= k < i ==> AllSpace(ls[k])
    requires forall k :: j <= k < |ls| ==> AllSpace(ls[k])
    requires !AllSpace(ls[i]) && !AllSpace(ls[j - 1])
    ensures Normalize(Join("\n", ls)) == Join("\n", RStripLines(FirstLStripped(ls[i..j])))
  {
    var m := ls[i..j];
    assert m[0] == ls[i] && m[|m| - 1] == ls[j - 1];
    SliceNoBreaks(ls, i, j);
    NormalizeNonBlankEnds(m);
    var u, w := JoinAroundCore(ls, i, j);
    NormalizeIgnoresSurroundingSpace(u, Join("\n", m), w);
  }

  /** Right-stripping every line keeps lines free of boundaries and keeps
      which lines are blank. */
  lemma {:induction false} RStripLinesKeepsBlanks(ls: seq<string>)
    requires LinesNoBreaks(ls)
    ensures LinesNoBreaks(RStripLines(ls))
    ensures forall k :: 0 <= k < |ls| ==> (AllSpace(RStripLines(ls)[k]) <==> AllSpace(ls[k]))
  {
    RStripLinesClean(ls);
  }

  /** Around a non-blank line `v`: the first non-blank line `i` and the line
      `j - 1` after which every line is blank. */
  lemma {:induction false} FindCore(ls: seq<string>, v: nat) returns (i: nat, j: nat)
    requires v < |ls| && !AllSpace(ls[v])
    ensures i <= v < j <= |ls|
    ensures forall k :: 0 <= k < i ==> AllSpace(ls[k])
    ensures forall k :: j <= k < |ls| ==> AllSpace(ls[k])
    ensures !AllSpace(ls[i]) && !AllSpace(ls[j - 1])
  {
    i := 0;
    while i < v && AllSpace(ls[i])
      invariant i <= v
      invariant forall k :: 0 <= k < i ==> AllSpace(ls[k])
    {
      i := i + 1;
    }
    j := |ls|;
    while j - 1 > v && AllSpace(ls[j - 1])
      invariant v < j <= |ls|
      invariant forall k :: j <= k < |ls| ==> AllSpace(ls[k])
    {
      j := j - 1;
    }
  }

  /** The core lines give the same normal lines whether or not every line
      was right-stripped first. */
  lemma {:induction false} SameCoreLines(ls: seq<string>, i: nat, j: nat)
    requires i < j <= |ls|
    ensures RStripLines(FirstLStripped(RStripLines(ls)[i..j])) == RStripLines(FirstLStripped(ls[i..j]))
  {
    RStripLinesSlice(ls, i, j);
    StrippedCoreLines(ls[i..j]);
  }

  /** Right-stripping every line commutes with slicing. */
  lemma RStripLinesSlice(ls: seq<string>, i: nat, j: nat)
    requires i <= j <= |ls|
    ensures RStripLines(ls)[i..j] == RStripLines(ls[i..j])
  {
  }

  /** Left-stripping the first line after right-stripping every line gives
      the same lines, once right-stripped again, as without the first pass. */
  lemma StrippedCoreLines(m: seq<string>)
    requires m != []
    ensures RStripLines(FirstLStripped(RStripLines(m))) == RStripLines(FirstLStripped(m))
  {
    var r := RStripLines(m);
    var x, y := LStrip(m[0]), LStrip(r[0]);
    var a, b := FirstLStripped(m), FirstLStripped(r);
    assert a == [x] + m[1..] && b == [y] + r[1..];
    ReplaceFirstAt(x, m);
    ReplaceFirstAt(y, r);
    forall k | 0 <= k < |m|
      ensures RStrip(b[k]) == RStrip(a[k])
    {
      assert r[k] == RStrip(m[k]);
      if k == 0 {
        StripAfterRStrip(m[0]);
      } else {
        RStripIdempotent(m[k]);
      }
    }
    RStripLinesPointwise(b, a);
  }

  /** The lines of `m` with the first replaced by `x`, one by one. */
  lemma ReplaceFirstAt(x: string, m: seq<string>)
    requires m != []
    ensures |[x] + m[1..]| == |m| && ([x] + m[1..])[0] == x
    ensures forall k :: 0 < k < |m| ==> ([x] + m[1..])[k] == m[k]
  {
  }

  /** Lines that right-strip alike right-strip to the same lines. */
  lemma RStripLinesPointwise(a: seq<string>, b: seq<string>)
    requires |a| == |b|
    requires forall k :: 0 <= k < |a| ==> RStrip(a[k]) == RStrip(b[k])
    ensures RStripLines(a) == RStripLines(b)
  {
  }

  /** Trailing whitespace on ANY line is ignored, not only at the end of the
      whole output: right-stripping every line first changes no verdict. */
  lemma {:induction false} EveryLineTrailingSpaceIgnored(ls: seq<string>, expected: string)
    requires LinesNoBreaks(ls)
    ensures Normalize(Join("\n", RStripLines(ls))) == Normalize(Join("\n", ls))
    ensures CompareOutputs(Join("\n", RStripLines(ls)), expected) <==> CompareOutputs(Join("\n", ls), expected)
  {
    var rs := RStripLines(ls);
    RStripLinesKeepsBlanks(ls);
    if v :| 0 <= v < |ls| && !AllSpace(ls[v]) {
      var i, j := FindCore(ls, v);
      NormalizeCore(ls, i, j);
      NormalizeCore(rs, i, j);
      SameCoreLines(ls, i, j);
    } else {
      BlankLinesNormalizeEmpty(ls);
      BlankLinesNormalizeEmpty(rs);
    }
  }

  /** `"a \nb"` matches `"a\nb"`: the space ends an inner line, not the output. */
  lemma {:induction false} InnerLineTrailingSpaceIgnored()
    ensures CompareOutputs("a \nb", "a\nb")
  {
    var ls := ["a ", "b"];
    assert Join("\n", ls) == "a \nb";
    assert NoBreaks(ls[0]) && NoBreaks(ls[1]);
    assert RStrip("a ") == "a" by {
      assert "a "[..1] == "a";
    }
    assert RStripLines(ls) == ["a", "b"];
    assert Join("\n", ["a", "b"]) == "a\nb";
    EveryLineTrailingSpaceIgnored(ls, "a\nb");
  }

  // ---------------------------------------------------------------------------
  // Scoring

  /** The number of passed tests. */
  function CountTrue(results: seq<bool>): (n: nat)
    ensures n <= |results|
    ensures n == |results| <==> AllPass(results)
    ensures n == 0 <==> NonePass(results)
  {
    if results == [] then 0
    else (if results[0] then 1 else 0) + CountTrue(results[1..])
  }

  /** Every test passed. */
  predicate AllPass(results: seq<bool>) {
    forall i :: 0 <= i < |results| ==> results[i]
  }

  /** No test passed. */
  predicate NonePass(results: seq<bool>) {
    forall i :: 0 <= i < |results| ==> !results[i]
  }

  /** `evaluate_test_results`: the percentage of passed tests, 0.0 for no tests. */
  function EvaluateTestResults(results: seq<bool>): (score: real)
    ensures results == [] ==> score == 0.0
    ensures results != [] ==> score * (|results| as real) == 100.0 * (CountTrue(results) as real)
    ensures 0.0 <= score <= 100.0
    ensures results != [] ==> (score == 100.0 <==> AllPass(results))
    ensures score == 0.0 <==> NonePass(results)
  {
    if results == [] then 0.0 else Share(CountTrue(results), |results|)
  }

  /** `passed / total * 100` for a positive total. */
  function Share(passed: nat, total: nat): (p: real)
    requires passed <= total && total > 0
    ensures p * (total as real) == 100.0 * (passed as real)
    ensures 0.0 <= p <= 100.0
    ensures p == 100.0 <==> passed == total
    ensures p == 0.0 <==> passed == 0
  {
    Percentage(passed as real, total as real);
    (passed as real / total as real) * 100.0
  }

  /** The arithmetic of a percentage of a positive whole. */
  lemma Percentage(c: real, n: real)
    requires 0.0 <= c <= n && n > 0.0
    ensures var p := (c / n) * 100.0;
      && p * n == 100.0 * c
      && 0.0 <= p <= 100.0
      && (p == 100.0 <==> c == n)
      && (p == 0.0 <==> c == 0.0)
  {
    var q := c / n;
    assert q * n == c;
    assert q >= 0.0 by {
      assert q < 0.0 ==> q * n < 0.0;
    }
    var r := 1.0 - q;
    assert r * n == n - c;
    assert r >= 0.0 by {
      assert r < 0.0 ==> r * n < 0.0;
    }
    assert q == 1.0 <==> c == n;
  }

  /** The number of passes is the multiplicity of `true` among the results. */
  lemma {:induction false} CountTrueIsMultiplicity(results: seq<bool>)
    ensures CountTrue(results) == multiset(results)[true]
  {
    if results != [] {
      assert results == [results[0]] + results[1..];
      CountTrueIsMultiplicity(results[1..]);
    }
  }

  /** The score depends only on how many tests pass, not on their order. */
  lemma ScoreIgnoresOrder(a: seq<bool>, b: seq<bool>)
    requires multiset(a) == multiset(b)
    ensures EvaluateTestResults(a) == EvaluateTestResults(b)
  {
    CountTrueIsMultiplicity(a);
    CountTrueIsMultiplicity(b);
    assert |a| == |multiset(a)| == |multiset(b)| == |b|;
  }

  /** Four equally weighted tests of which three pass score exactly 75. */
  lemma ThreeOfFour()
    ensures EvaluateTestResults([true, true, false, true]) == 75.0
  {
    assert CountTrue([true, true, false, true]) == 3;
  }
}
