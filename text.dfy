/** The JavaScript string operations the application relies on, over an
    explicit ASCII character model: `trim`, `substring(0, n)`, global
    `replace`, `split`/`join`, `toLowerCase` and the `\s` and `\w` classes. */
module Text {
  import opened Wrappers

  /** ASCII whitespace: what `trim` removes and what `\s` matches in this model. */
  predicate IsSpace(c: char) {
    c == ' ' || c == '\t' || c == '\n' || c == '\r' || c == '\U{000B}' || c == '\U{000C}'
  }

  /** `\w`, that is `[A-Za-z0-9_]`. */
  predicate IsWordChar(c: char) {
    ('a' <= c <= 'z') || ('A' <= c <= 'Z') || ('0' <= c <= '9') || c == '_'
  }

  predicate IsBlank(s: string) {
    forall i :: 0 <= i < |s| ==> IsSpace(s[i])
  }

  /** No whitespace anywhere in `s`. */
  predicate NoSpace(s: string) {
    forall i :: 0 <= i < |s| ==> !IsSpace(s[i])
  }

  predicate AllWordChars(s: string) {
    forall i :: 0 <= i < |s| ==> IsWordChar(s[i])
  }

  // ---------------------------------------------------------------------------
  // trim
  // ---------------------------------------------------------------------------

  function TrimStart(s: string): (r: string)
    ensures |r| <= |s| && r == s[|s| - |r|..]
    ensures r == [] || !IsSpace(r[0])
    ensures forall i :: 0 <= i < |s| - |r| ==> IsSpace(s[i])
  {
    if s != [] && IsSpace(s[0]) then TrimStart(s[1..]) else s
  }

  function TrimEnd(s: string): (r: string)
    ensures |r| <= |s| && r == s[..|r|]
    ensures r == [] || !IsSpace(r[|r| - 1])
    ensures forall i :: |r| <= i < |s| ==> IsSpace(s[i])
  {
    if s != [] && IsSpace(s[|s| - 1]) then TrimEnd(s[..|s| - 1]) else s
  }

  /** Number of leading whitespace characters that `trim` drops. */
  function TrimOffset(s: string): (k: nat)
    ensures k <= |s|
  {
    |s| - |TrimStart(s)|
  }

  /** `s.trim()`: the slice of `s` left after dropping leading and trailing
      whitespace. It is empty exactly when `s` is blank. */
  function Trim(s: string): (r: string)
    ensures TrimOffset(s) + |r| <= |s|
    ensures r == s[TrimOffset(s)..TrimOffset(s) + |r|]
    ensures r == [] || (!IsSpace(r[0]) && !IsSpace(r[|r| - 1]))
    ensures forall i :: 0 <= i < TrimOffset(s) ==> IsSpace(s[i])
    ensures forall i :: TrimOffset(s) + |r| <= i < |s| ==> IsSpace(s[i])
    ensures r == [] <==> IsBlank(s)
  {
    TrimEnd(TrimStart(s))
  }

  /** `trim` leaves an already trimmed text alone, so it is idempotent. */
  lemma TrimKeepsTrimmed(s: string)
    requires s == [] || (!IsSpace(s[0]) && !IsSpace(s[|s| - 1]))
    ensures Trim(s) == s
  {
    assert TrimStart(s) == s;
  }

  /** Leading whitespace in front of a text that starts with a non-space is
      exactly what `trimStart` removes. */
  lemma {:induction false} TrimStartSkipsBlank(w: string, x: string)
    requires IsBlank(w) && (x == [] || !IsSpace(x[0]))
    ensures TrimStart(w + x) == x
    decreases |w|
  {
    if w == [] {
      assert w + x == x;
    } else {
      assert (w + x)[0] == w[0] && (w + x)[1..] == w[1..] + x;
      TrimStartSkipsBlank(w[1..], x);
    }
  }

  /** Trailing whitespace behind a text that ends with a non-space is
      exactly what `trimEnd` removes. */
  lemma {:induction false} TrimEndSkipsBlank(x: string, w: string)
    requires IsBlank(w) && (x == [] || !IsSpace(x[|x| - 1]))
    ensures TrimEnd(x + w) == x
    decreases |w|
  {
    if w == [] {
      assert x + w == x;
    } else {
      assert (x + w)[|x + w| - 1] == w[|w| - 1] && (x + w)[..|x + w| - 1] == x + w[..|w| - 1];
      TrimEndSkipsBlank(x, w[..|w| - 1]);
    }
  }

  /** `trim` removes exactly the blank text around a text that neither
      starts nor ends with whitespace. */
  lemma TrimDropsBlankEdges(pre: string, m: string, post: string)
    requires IsBlank(pre) && IsBlank(post) && m != [] && !IsSpace(m[0]) && !IsSpace(m[|m| - 1])
    ensures Trim(pre + m + post) == m
  {
    assert pre + m + post == pre + (m + post);
    assert (m + post)[0] == m[0];
    TrimStartSkipsBlank(pre, m + post);
    TrimEndSkipsBlank(m, post);
  }

  // ---------------------------------------------------------------------------
  // substring, occurrences, replace
  // ---------------------------------------------------------------------------

  /** `s.substring(0, n)`: the first min(n, |s|) characters of `s`. */
  function Prefix(s: string, n: nat): (r: string)
    ensures |r| == Min(n, |s|) && r == s[..|r|]
  {
    if |s| <= n then s else s[..n]
  }

  predicate OccursAt(s: string, pat: string, i: int) {
    0 <= i && i + |pat| <= |s| && s[i..i + |pat|] == pat
  }

  predicate Contains(s: string, pat: string) {
    exists i | 0 <= i <= |s| :: OccursAt(s, pat, i)
  }

  /** `s.replace(/pat/g, rep)` for a literal pattern: occurrences are found
      left to right and do not overlap. */
  function ReplaceAll(s: string, pat: string, rep: string): string
    requires |pat| > 0
    decreases |s|
  {
    if |s| < |pat| then s
    else if s[..|pat|] == pat then rep + ReplaceAll(s[|pat|..], pat, rep)
    else [s[0]] + ReplaceAll(s[1..], pat, rep)
  }

  lemma {:induction false} ReplaceAllWithoutOccurrence(s: string, pat: string, rep: string)
    requires |pat| > 0 && !Contains(s, pat)
    ensures ReplaceAll(s, pat, rep) == s
    decreases |s|
  {
    if |s| >= |pat| {
      assert !OccursAt(s, pat, 0);
      assert !Contains(s[1..], pat) by {
        forall i | OccursAt(s[1..], pat, i) ensures false {
          assert s[1..][i..i + |pat|] == s[i + 1..i + 1 + |pat|];
          assert OccursAt(s, pat, i + 1);
        }
      }
      ReplaceAllWithoutOccurrence(s[1..], pat, rep);
    }
  }

  /** Replacing every occurrence of a single character by a text that does
      not contain it leaves none of that character. */
  lemma {:induction false} ReplaceCharRemovesIt(s: string, c: char, rep: string)
    requires c !in rep
    ensures c !in ReplaceAll(s, [c], rep)
    decreases |s|
  {
    if |s| >= 1 {
      ReplaceCharRemovesIt(s[1..], c, rep);
    }
  }

  const Fence: string := "```"

  /** If `t` does not start with a fence, removing fences keeps its first character. */
  lemma FenceRemovalKeepsFirst(t: string)
    requires t != [] && !OccursAt(t, Fence, 0)
    ensures ReplaceAll(t, Fence, "") != [] && ReplaceAll(t, Fence, "")[0] == t[0]
  {
  }

  /** Removing every "```" left to right cannot glue a new "```" together. */
  lemma {:induction false} FenceRemovalLeavesNone(s: string)
    ensures !Contains(ReplaceAll(s, Fence, ""), Fence)
    decreases |s|
  {
    var r := ReplaceAll(s, Fence, "");
    assert |Fence| == 3 && Fence[0] == '`' && Fence[1] == '`' && Fence[2] == '`';
    if |s| < 3 {
      assert r == s;
    } else if s[..3] == Fence {
      assert r == ReplaceAll(s[3..], Fence, "");
      FenceRemovalLeavesNone(s[3..]);
    } else {
      var t := s[1..];
      var r' := ReplaceAll(t, Fence, "");
      FenceRemovalLeavesNone(t);
      assert r == [s[0]] + r';
      forall i | OccursAt(r, Fence, i) ensures false {
        if i >= 1 {
          assert r[i..i + 3] == r'[i - 1..i + 2];
          assert OccursAt(r', Fence, i - 1);
        } else {
          // r starts with "```": s[0] and the first two characters of r' are backticks
          assert r[..3] == Fence;
          assert r[0] == r[..3][0] && r[1] == r[..3][1] && r[2] == r[..3][2];
          assert s[0] == '`' && r'[0] == '`' && r'[1] == '`';
          assert !OccursAt(t, Fence, 0);
          FenceRemovalKeepsFirst(t);
          assert r' == [t[0]] + ReplaceAll(t[1..], Fence, "");
          assert !OccursAt(t[1..], Fence, 0);
          FenceRemovalKeepsFirst(t[1..]);
        }
      }
    }
  }

  /** A slice of a text without an occurrence has none either. */
  lemma SliceKeepsAbsence(s: string, pat: string, lo: nat, hi: nat)
    requires lo <= hi <= |s| && !Contains(s, pat)
    ensures !Contains(s[lo..hi], pat)
  {
    forall i | OccursAt(s[lo..hi], pat, i) ensures false {
      var j := lo + i;
      forall k | 0 <= k < |pat| ensures s[j..j + |pat|][k] == pat[k] {
        assert s[lo..hi][i..i + |pat|][k] == pat[k];
      }
      assert OccursAt(s, pat, j) && j <= |s|;
    }
  }

  /** Whatever is placed between two texts occurs in their concatenation. */
  lemma ContainsMiddle(a: string, b: string, c: string)
    ensures Contains(a + b + c, b)
  {
    assert (a + b + c)[|a|..|a| + |b|] == b;
    assert OccursAt(a + b + c, b, |a|);
  }

  /** A piece placed anywhere inside a longer concatenation still occurs in it. */
  lemma ContainsInside(p: string, a: string, b: string, c: string)
    ensures Contains(p + (a + b + c), b)
  {
    assert p + (a + b + c) == (p + a) + b + c;
    ContainsMiddle(p + a, b, c);
  }

  /** The second and fourth of five concatenated pieces occur in the whole. */
  lemma ContainsSecondAndFourth(a: string, b: string, c: string, d: string, e: string)
    ensures Contains(a + b + c + d + e, b) && Contains(a + b + c + d + e, d)
  {
    assert a + b + c + d + e == a + b + (c + d + e);
    ContainsMiddle(a, b, c + d + e);
    assert a + b + c + d + e == (a + b + c) + d + e;
    ContainsMiddle(a + b + c, d, e);
  }

  /** Trimming cannot create an occurrence. */
  lemma {:induction false} TrimKeepsAbsence(s: string, pat: string)
    requires !Contains(s, pat)
    ensures !Contains(Trim(s), pat)
  {
    SliceKeepsAbsence(s, pat, TrimOffset(s), TrimOffset(s) + |Trim(s)|);
  }

  /** Trimming keeps a contiguous piece of the text. */
  lemma TrimIsInside(s: string)
    ensures Contains(s, Trim(s))
  {
    assert OccursAt(s, Trim(s), TrimOffset(s));
  }

  /** A text containing a longer pattern contains every prefix of that pattern. */
  lemma ContainsPatternPrefix(s: string, pat: string, n: nat)
    requires n <= |pat| && Contains(s, pat)
    ensures Contains(s, pat[..n])
  {
    var i :| 0 <= i <= |s| && OccursAt(s, pat, i);
    assert s[i..i + n] == s[i..i + |pat|][..n];
    assert OccursAt(s, pat[..n], i);
  }

  /** `s.replace(/\s+/g, rep)`: every maximal run of whitespace becomes `rep`. */
  function ReplaceSpaceRuns(s: string, rep: string): (r: string)
    ensures |rep| <= 1 ==> |r| <= |s|
    ensures NoSpace(rep) ==> NoSpace(r)
    ensures NoSpace(s) ==> r == s
    decreases |s|
  {
    if s == [] then []
    else if IsSpace(s[0]) then rep + ReplaceSpaceRuns(TrimStart(s), rep)
    else [s[0]] + ReplaceSpaceRuns(s[1..], rep)
  }

  /** A non-space first character is copied and the rest processed after it. */
  lemma ReplaceSpaceRunsStep(s: string, t: string, rep: string)
    requires s != [] && !IsSpace(s[0]) && s[1..] == t
    ensures ReplaceSpaceRuns(s, rep) == [s[0]] + ReplaceSpaceRuns(t, rep)
  {
  }

  /** Text without whitespace in front of the rest passes through unchanged. */
  lemma {:induction false} ReplaceSpaceRunsKeepsPrefix(a: string, rest: string, rep: string)
    requires NoSpace(a)
    ensures ReplaceSpaceRuns(a + rest, rep) == a + ReplaceSpaceRuns(rest, rep)
    decreases |a|
  {
    if a == [] {
      assert a + rest == rest;
    } else {
      var tail, done := a[1..], ReplaceSpaceRuns(rest, rep);
      NoSpaceTail(a);
      ConsSplit(a, rest);
      ReplaceSpaceRunsKeepsPrefix(tail, rest, rep);
      ReplaceSpaceRunsStep(a + rest, tail + rest, rep);
      PrependFirst(a, done);
    }
  }

  /** Putting the first character back in front of the rest. */
  lemma PrependFirst(a: string, x: string)
    requires a != []
    ensures [a[0]] + (a[1..] + x) == a + x
  {
    assert [a[0]] + a[1..] == a;
  }

  /** Text without whitespace starts with a non-space and its tail has none. */
  lemma NoSpaceTail(a: string)
    requires a != [] && NoSpace(a)
    ensures !IsSpace(a[0]) && NoSpace(a[1..])
  {
    assert forall i :: 0 <= i < |a| - 1 ==> a[1..][i] == a[i + 1];
  }

  /** The first character and the rest of a concatenation led by `a`. */
  lemma ConsSplit(a: string, rest: string)
    requires a != []
    ensures (a + rest)[0] == a[0] && (a + rest)[1..] == a[1..] + rest
  {
  }

  /** A whole run of whitespace, however long, becomes one replacement. */
  lemma ReplaceSpaceRunsCollapses(w: string, x: string, rep: string)
    requires w != [] && IsBlank(w) && (x == [] || !IsSpace(x[0]))
    ensures ReplaceSpaceRuns(w + x, rep) == rep + ReplaceSpaceRuns(x, rep)
  {
    assert (w + x)[0] == w[0];
    TrimStartSkipsBlank(w, x);
  }

  /** Two texts without whitespace and a whitespace run between them: the
      run becomes one replacement and the texts are kept. */
  lemma ReplaceSpaceRunsBetween(a: string, w: string, b: string, rep: string)
    requires NoSpace(a) && NoSpace(b)
    requires w != [] && IsBlank(w)
    ensures ReplaceSpaceRuns(a + w + b, rep) == a + rep + b
  {
    assert a + w + b == a + (w + b);
    ReplaceSpaceRunsKeepsPrefix(a, w + b, rep);
    ReplaceSpaceRunsCollapses(w, b, rep);
  }

  /** `s.replace(/[^a-zA-Z0-9_]/g, '')`: the word characters of `s`, in order. */
  function KeepWordChars(s: string): (r: string)
    ensures |r| <= |s|
    ensures AllWordChars(r)
    ensures AllWordChars(s) ==> r == s
  {
    if s == [] then []
    else if IsWordChar(s[0]) then [s[0]] + KeepWordChars(s[1..])
    else KeepWordChars(s[1..])
  }

  /** Stripping non-word characters works piece by piece. */
  lemma {:induction false} KeepWordCharsConcat(x: string, y: string)
    ensures KeepWordChars(x + y) == KeepWordChars(x) + KeepWordChars(y)
    decreases |x|
  {
    if x != [] {
      ConsSplit(x, y);
      KeepWordCharsConcat(x[1..], y);
    } else {
      assert x + y == y;
    }
  }

  /** A single non-word character is stripped entirely. */
  lemma KeepWordCharsDrops(c: char)
    requires !IsWordChar(c)
    ensures KeepWordChars([c]) == []
  {
    assert [c][1..] == [];
  }

  /** Text made only of word characters has no whitespace to trim or collapse
      and nothing to strip, so the three clean-up steps leave it as it is. */
  lemma WordTextIsClean(s: string, rep: string)
    requires AllWordChars(s)
    ensures Trim(s) == s
    ensures ReplaceSpaceRuns(s, rep) == s
    ensures KeepWordChars(s) == s
  {
    WordTextHasNoSpace(s);
    TrimKeepsTrimmed(s);
  }

  lemma WordTextHasNoSpace(s: string)
    requires AllWordChars(s)
    ensures NoSpace(s)
  {
    forall i | 0 <= i < |s| ensures !IsSpace(s[i]) {
      assert IsWordChar(s[i]);
    }
  }

  // ---------------------------------------------------------------------------
  // split and join
  // ---------------------------------------------------------------------------

  /** `parts.join(sep)`. */
  function Join(parts: seq<string>, sep: string): string {
    if |parts| == 0 then ""
    else if |parts| == 1 then parts[0]
    else parts[0] + sep + Join(parts[1..], sep)
  }

  /** The joined text in front of a part: the earlier parts and one separator. */
  function JoinBefore(parts: seq<string>, sep: string): string {
    if parts == [] then "" else Join(parts, sep) + sep
  }

  /** The joined text behind a part: one separator and the later parts. */
  function JoinAfter(parts: seq<string>, sep: string): string {
    if parts == [] then "" else sep + Join(parts, sep)
  }

  /** The text in front of the later parts: the first part, a separator,
      and the text in front of the others. */
  lemma JoinBeforeCons(parts: seq<string>, sep: string, k: int)
    requires 0 < k <= |parts|
    ensures JoinBefore(parts[..k], sep) == parts[0] + sep + JoinBefore(parts[1..k], sep)
  {
    if k > 1 {
      assert parts[..k][1..] == parts[1..k];
    }
  }

  /** Every part of a join sits in it whole, between the join of the parts
      before it and the join of the parts after it. */
  lemma {:induction false} JoinAround(parts: seq<string>, sep: string, k: int)
    requires 0 <= k < |parts|
    ensures Join(parts, sep) == JoinBefore(parts[..k], sep) + parts[k] + JoinAfter(parts[k + 1..], sep)
    decreases k
  {
    var after := JoinAfter(parts[k + 1..], sep);
    if k == 0 {
      assert parts[..0] == [] && parts[1..] == parts[k + 1..];
    } else {
      var rest := parts[1..];
      assert rest[..k - 1] == parts[1..k] && rest[k..] == parts[k + 1..] && rest[k - 1] == parts[k];
      var inner := JoinBefore(parts[1..k], sep);
      calc {
        Join(parts, sep);
        parts[0] + sep + Join(rest, sep);
        { JoinAround(rest, sep, k - 1); }
        parts[0] + sep + (inner + parts[k] + after);
        (parts[0] + sep + inner) + parts[k] + after;
        { JoinBeforeCons(parts, sep, k); }
        JoinBefore(parts[..k], sep) + parts[k] + after;
      }
    }
  }

  /** `a` occurs in `s` ending no later than where an occurrence of `b` starts. */
  predicate OccursBefore(s: string, a: string, b: string) {
    exists p, q | 0 <= p && p + |a| <= q <= |s| :: OccursAt(s, a, p) && OccursAt(s, b, q)
  }

  /** Text around a string keeps every occurrence in it. */
  lemma OccursAtInside(pre: string, s: string, post: string, pat: string, i: int)
    requires OccursAt(s, pat, i)
    ensures OccursAt(pre + s + post, pat, |pre| + i)
  {
    assert (pre + s + post)[|pre| + i..|pre| + i + |pat|] == s[i..i + |pat|];
  }

  /** Each part of a join occurs in it. */
  lemma JoinContainsPart(parts: seq<string>, sep: string, k: int)
    requires 0 <= k < |parts|
    ensures OccursAt(Join(parts, sep), parts[k], |JoinBefore(parts[..k], sep)|)
  {
    JoinAround(parts, sep, k);
    OccursAtInside(JoinBefore(parts[..k], sep), parts[k], JoinAfter(parts[k + 1..], sep), parts[k], 0);
  }

  /** An occurrence in the first half of a text comes before any in the second. */
  lemma OccursBeforeAcross(s: string, x: string, y: string, a: string, b: string, p: int, q: int)
    requires s == x + y && OccursAt(x, a, p) && OccursAt(y, b, q)
    ensures OccursBefore(s, a, b)
  {
    OccursAtInside("", x, y, a, p);
    OccursAtInside(x, y, "", b, q);
    assert "" + x + y == x + y + "" == x + y;
  }

  /** Cutting a join after a part that is not the last. */
  lemma JoinSplitAfter(parts: seq<string>, sep: string, i: int)
    requires 0 <= i < |parts| - 1
    ensures Join(parts, sep) == (JoinBefore(parts[..i], sep) + parts[i] + sep) + Join(parts[i + 1..], sep)
  {
    var before, after := JoinBefore(parts[..i], sep), Join(parts[i + 1..], sep);
    JoinAround(parts, sep, i);
    assert JoinAfter(parts[i + 1..], sep) == sep + after;
    assert before + parts[i] + (sep + after) == (before + parts[i] + sep) + after;
  }

  /** A string occurs in itself with text around it. */
  lemma OccursBetween(pre: string, a: string, post: string)
    ensures OccursAt(pre + a + post, a, |pre|)
  {
    assert (pre + a + post)[|pre|..|pre| + |a|] == a;
  }

  /** A join keeps the order of its parts: an earlier part occurs wholly
      before a later one. */
  lemma JoinKeepsOrder(parts: seq<string>, sep: string, i: int, j: int)
    requires 0 <= i < j < |parts|
    ensures OccursBefore(Join(parts, sep), parts[i], parts[j])
  {
    var rest := parts[i + 1..];
    var front := JoinBefore(parts[..i], sep) + parts[i] + sep;
    JoinSplitAfter(parts, sep, i);
    OccursBetween(JoinBefore(parts[..i], sep), parts[i], sep);
    JoinContainsPart(rest, sep, j - i - 1);
    OccursBeforeAcross(Join(parts, sep), front, Join(rest, sep), parts[i], rest[j - i - 1],
                       |JoinBefore(parts[..i], sep)|, |JoinBefore(rest[..j - i - 1], sep)|);
  }

  /** Text around a string keeps the order of occurrences in it. */
  lemma OccursBeforeInside(pre: string, s: string, post: string, a: string, b: string)
    requires OccursBefore(s, a, b)
    ensures OccursBefore(pre + s + post, a, b)
  {
    var p, q :| 0 <= p && p + |a| <= q && OccursAt(s, a, p) && OccursAt(s, b, q);
    OccursAtInside(pre, s, post, a, p);
    OccursAtInside(pre, s, post, b, q);
  }

  /** `s.split(sep)` for a one-character separator: at least one piece, and
      no piece contains the separator. */
  function Split(s: string, sep: char): (r: seq<string>)
    ensures |r| >= 1
    ensures forall i :: 0 <= i < |r| ==> sep !in r[i]
    decreases |s|
  {
    if s == [] then [""]
    else
      var rest := Split(s[1..], sep);
      if s[0] == sep then [""] + rest
      else [[s[0]] + rest[0]] + rest[1..]
  }

  lemma JoinExtendFirst(c: char, parts: seq<string>, sep: string)
    requires |parts| >= 1
    ensures Join([[c] + parts[0]] + parts[1..], sep) == [c] + Join(parts, sep)
  {
    var q := [[c] + parts[0]] + parts[1..];
    if |parts| > 1 {
      assert q[1..] == parts[1..];
    }
  }

  /** Joining the pieces of a split with the separator gives back the text. */
  lemma {:induction false} SplitThenJoin(s: string, sep: char)
    ensures Join(Split(s, sep), [sep]) == s
    decreases |s|
  {
    if s != [] {
      var rest := Split(s[1..], sep);
      SplitThenJoin(s[1..], sep);
      if s[0] == sep {
        assert ([""] + rest)[1..] == rest;
      } else {
        JoinExtendFirst(s[0], rest, [sep]);
      }
    }
  }

  /** Replacing every occurrence of one character is splitting at it and
      joining the pieces with the replacement. */
  lemma {:induction false} ReplaceCharIsSplitJoin(s: string, c: char, rep: string)
    ensures ReplaceAll(s, [c], rep) == Join(Split(s, c), rep)
    decreases |s|
  {
    if s != [] {
      var rest := Split(s[1..], c);
      ReplaceCharIsSplitJoin(s[1..], c, rep);
      if s[0] == c {
        assert s[..1] == [c];
        assert ([""] + rest)[1..] == rest;
      } else {
        assert s[..1] != [c];
        JoinExtendFirst(s[0], rest, rep);
      }
    }
  }

  /** `s.split('\n')[0]`: the text before the first line break. */
  function FirstLine(s: string): (r: string)
    ensures '\n' !in r
  {
    Split(s, '\n')[0]
  }

  /** The first line is the longest line-break-free prefix of the text. */
  lemma {:induction false} FirstLineIsPrefix(s: string)
    ensures |FirstLine(s)| <= |s| && FirstLine(s) == s[..|FirstLine(s)|]
    ensures |FirstLine(s)| < |s| ==> s[|FirstLine(s)|] == '\n'
    decreases |s|
  {
    if s != [] && s[0] != '\n' {
      FirstLineIsPrefix(s[1..]);
    }
  }

  // ---------------------------------------------------------------------------
  // case
  // ---------------------------------------------------------------------------

  function LowerChar(c: char): char {
    if 'A' <= c <= 'Z' then (c as int + 32) as char else c
  }

  predicate IsUpperAscii(c: char) { 'A' <= c <= 'Z' }

  /** `s.toLowerCase()` on ASCII text. */
  function ToLower(s: string): (r: string)
    ensures |r| == |s|
    ensures forall i :: 0 <= i < |s| ==> r[i] == LowerChar(s[i]) && !IsUpperAscii(r[i])
  {
    if s == [] then [] else [LowerChar(s[0])] + ToLower(s[1..])
  }
}
