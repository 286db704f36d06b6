/**
  The JavaScript string primitives the core relies on (startsWith, endsWith,
  indexOf, split, join, trim, replace), written out over `seq<char>`.
 */
module JsStrings {

  predicate StartsWith(s: string, prefix: string) {
    |prefix| <= |s| && s[..|prefix|] == prefix
  }

  predicate EndsWith(s: string, suffix: string) {
    |suffix| <= |s| && s[|s| - |suffix|..] == suffix
  }

  /** A member of JavaScript's `\s` class (white space and line terminators). */
  predicate IsSpace(c: char) {
    || c == ' ' || c == '\t' || c == '\n' || c == '\r' || c == '\U{000B}' || c == '\U{000C}'
    || c == '\U{00A0}' || c == '\U{1680}' || ('\U{2000}' <= c <= '\U{200A}')
    || c == '\U{2028}' || c == '\U{2029}' || c == '\U{202F}' || c == '\U{205F}'
    || c == '\U{3000}' || c == '\U{FEFF}'
  }

  /** The characters that JavaScript's `.` does not match. */
  predicate IsLineTerminator(c: char) {
    c == '\n' || c == '\r' || c == '\U{2028}' || c == '\U{2029}'
  }

  /** `!s.trim()`: the string is empty or white space only. */
  predicate IsBlank(s: string) {
    forall i :: 0 <= i < |s| ==> IsSpace(s[i])
  }

  /** `s.indexOf(c)` for a one-character needle: -1 when absent. */
  function IndexOfChar(s: string, c: char): (r: int)
    ensures -1 <= r < |s|
    ensures r == -1 <==> c !in s
    ensures 0 <= r ==> s[r] == c && forall j :: 0 <= j < r ==> s[j] != c
  {
    if |s| == 0 then -1
    else if s[0] == c then 0
    else
      var r := IndexOfChar(s[1..], c);
      if r < 0 then -1 else r + 1
  }

  /** Concatenation is associative (the solver needs this stated to avoid costly reasoning). */
  lemma ConcatAssoc<T>(a: seq<T>, b: seq<T>, c: seq<T>)
    ensures (a + b) + c == a + (b + c)
  {
  }

  /** A text is the part before an index, the character there, and the part after it. */
  lemma CutAt<T>(s: seq<T>, i: nat)
    requires i < |s|
    ensures s == s[..i] + [s[i]] + s[i + 1..]
  {
    assert s[i..] == [s[i]] + s[i + 1..];
    assert s == s[..i] + s[i..];
  }

  /** A non-empty sequence is its head followed by its tail. */
  lemma HeadTail<T>(s: seq<T>)
    requires s != []
    ensures s == [s[0]] + s[1..]
  {
  }

  /** A non-empty sequence is its front followed by its last element. */
  lemma InitLast<T>(s: seq<T>)
    requires s != []
    ensures s == s[..|s| - 1] + [s[|s| - 1]]
  {
  }

  /** The pieces of a text cut around one character. */
  lemma Pieces<T>(a: seq<T>, c: T, t: seq<T>)
    ensures (a + [c] + t)[..|a|] == a && (a + [c] + t)[|a|] == c && (a + [c] + t)[|a| + 1..] == t
  {
  }

  /** `s.split(sep)` for a one-character separator. */
  function Split(s: string, sep: char): (parts: seq<string>)
    ensures |parts| >= 1
    ensures forall p :: p in parts ==> sep !in p
    decreases |s|
  {
    var i := IndexOfChar(s, sep);
    if i < 0 then [s] else [s[..i]] + Split(s[i + 1..], sep)
  }

  /** `parts.join(sep)` for a one-character separator. */
  function Join(parts: seq<string>, sep: char): string {
    if |parts| == 0 then ""
    else if |parts| == 1 then parts[0]
    else parts[0] + [sep] + Join(parts[1..], sep)
  }

  /** Joining the pieces of a split gives back the text. */
  lemma {:induction false} JoinSplit(s: string, sep: char)
    ensures Join(Split(s, sep), sep) == s
    decreases |s|
  {
    var i := IndexOfChar(s, sep);
    if 0 <= i {
      var a, t := s[..i], s[i + 1..];
      var rest := Split(t, sep);
      JoinSplit(t, sep);
      assert Join([a] + rest, sep) == a + [sep] + Join(rest, sep) by {
        assert ([a] + rest)[1..] == rest;
      }
      CutAt(s, i);
    }
  }

  /** Splitting a join gives back the pieces when none contains the separator. */
  lemma {:induction false} SplitJoin(parts: seq<string>, sep: char)
    requires |parts| >= 1
    requires forall p :: p in parts ==> sep !in p
    ensures Split(Join(parts, sep), sep) == parts
  {
    var a := parts[0];
    assert sep !in a by { assert a in parts; }
    assert Split(a, sep) == [a];
    if |parts| > 1 {
      var t := Join(parts[1..], sep);
      assert Join(parts, sep) == a + [sep] + t;
      SplitAround(a, sep, t);
      assert forall p :: p in parts[1..] ==> p in parts;
      SplitJoin(parts[1..], sep);
      assert parts == [a] + parts[1..];
    }
  }

  /** The first occurrence is characterised by the occurrence and the absence before it. */
  lemma IndexOfCharIs(s: string, c: char, i: nat)
    requires i < |s| && s[i] == c
    requires forall j :: 0 <= j < i ==> s[j] != c
    ensures IndexOfChar(s, c) == i
  {
    var r := IndexOfChar(s, c);
    assert r != -1 by { assert s[i] in s; }
  }

  /** A separator between two texts splits them apart: the pieces of each, in order. */
  lemma {:induction false} SplitAround(a: string, sep: char, b: string)
    ensures Split(a + [sep] + b, sep) == Split(a, sep) + Split(b, sep)
    decreases |a|
  {
    var i := IndexOfChar(a, sep);
    if i == -1 {
      SplitAroundFree(a, sep, b);
    } else {
      SplitAroundCut(a, sep, b, i);
      SplitAround(a[i + 1..], sep, b);
      ConcatAssoc([a[..i]], Split(a[i + 1..], sep), Split(b, sep));
    }
  }

  /** A first piece free of the separator is cut off whole. */
  lemma SplitAroundFree(a: string, sep: char, b: string)
    requires sep !in a
    ensures Split(a + [sep] + b, sep) == Split(a, sep) + Split(b, sep)
  {
    var s := a + [sep] + b;
    forall j | 0 <= j < |a| ensures s[j] != sep {
      assert s[j] == a[j];
      assert a[j] in a;
    }
    IndexOfCharIs(s, sep, |a|);
    assert s[..|a|] == a;
    assert s[|a| + 1..] == b;
  }

  /** The first separator inside the first piece is the first one of the whole text. */
  lemma SplitAroundCut(a: string, sep: char, b: string, i: nat)
    requires i < |a| && a[i] == sep && forall j :: 0 <= j < i ==> a[j] != sep
    ensures Split(a + [sep] + b, sep) == [a[..i]] + Split(a[i + 1..] + [sep] + b, sep)
  {
    var s := a + [sep] + b;
    forall j | 0 <= j < i ensures s[j] != sep {
      assert s[j] == a[j];
    }
    IndexOfCharIs(s, sep, i);
    assert s[..i] == a[..i];
    assert s[i + 1..] == a[i + 1..] + [sep] + b;
  }

  /** `pat` occurs in `s` starting at index `i`. */
  predicate OccursAt(s: string, pat: string, i: int) {
    0 <= i && i + |pat| <= |s| && s[i..i + |pat|] == pat
  }

  /** `s.indexOf(pat, from)`: the first occurrence at or after `from`, or -1. */
  function IndexOfFrom(s: string, pat: string, from: nat): (r: int)
    ensures r == -1 || (from <= r && OccursAt(s, pat, r))
    ensures forall j :: from <= j && (r == -1 || j < r) ==> !OccursAt(s, pat, j)
    decreases |s| - from
  {
    if |s| < from + |pat| then -1
    else if s[from..from + |pat|] == pat then from
    else IndexOfFrom(s, pat, from + 1)
  }

  /** `s.replace(pat, rep)` with a string pattern: only the first occurrence is replaced. */
  function ReplaceFirst(s: string, pat: string, rep: string): (r: string)
    ensures IndexOfFrom(s, pat, 0) == -1 ==> r == s
  {
    var i := IndexOfFrom(s, pat, 0);
    if i < 0 then s else s[..i] + rep + s[i + |pat|..]
  }

  /**
    `s.replace(/pat/g, rep)` for a pattern with no special characters: scans left to right,
    replacing each occurrence and resuming after it.
   */
  function ReplaceAll(s: string, pat: string, rep: string): string
    requires |pat| > 0
    decreases |s|
  {
    if |s| < |pat| then s
    else if s[..|pat|] == pat then rep + ReplaceAll(s[|pat|..], pat, rep)
    else [s[0]] + ReplaceAll(s[1..], pat, rep)
  }

  /** Where the pattern does not occur, nothing is replaced. */
  lemma {:induction false} ReplaceAllAbsent(s: string, pat: string, rep: string)
    requires |pat| > 0
    requires forall j :: !OccursAt(s, pat, j)
    ensures ReplaceAll(s, pat, rep) == s
    decreases |s|
  {
    if |pat| <= |s| {
      assert !OccursAt(s, pat, 0);
      forall j ensures !OccursAt(s[1..], pat, j) {
        if OccursAt(s[1..], pat, j) {
          assert s[1..][j..j + |pat|] == s[j + 1..j + 1 + |pat|];
          assert OccursAt(s, pat, j + 1);
        }
      }
      ReplaceAllAbsent(s[1..], pat, rep);
    }
  }

  /** An occurrence in the tail `s[1..]` is an occurrence in `s`, one place later. */
  lemma OccursShift(s: string, pat: string, j: nat)
    requires |s| > 0
    ensures OccursAt(s[1..], pat, j) <==> OccursAt(s, pat, j + 1)
  {
    if j + |pat| <= |s| - 1 {
      assert s[1..][j..j + |pat|] == s[j + 1..j + 1 + |pat|];
    }
  }

  /** A position where the pattern does not start is copied unchanged. */
  lemma ReplaceAllSkip(s: string, pat: string, rep: string)
    requires |pat| > 0 && |s| > 0 && !OccursAt(s, pat, 0)
    ensures ReplaceAll(s, pat, rep) == [s[0]] + ReplaceAll(s[1..], pat, rep)
  {
  }

  lemma ShiftedSlices(s: string, i: nat, n: nat)
    requires 0 < i && i + n <= |s|
    ensures s[1..][i - 1 + n..] == s[i + n..]
    ensures [s[0]] + s[1..][..i - 1] == s[..i]
  {
  }

  /** The leftmost occurrence in `s`, past the first position, is the leftmost one in `s[1..]`. */
  lemma LeftmostInTail(s: string, pat: string, i: nat)
    requires 0 < i && OccursAt(s, pat, i)
    requires forall j :: 0 <= j < i ==> !OccursAt(s, pat, j)
    ensures OccursAt(s[1..], pat, i - 1)
    ensures forall j :: 0 <= j < i - 1 ==> !OccursAt(s[1..], pat, j)
  {
    OccursShift(s, pat, i - 1);
    forall j | 0 <= j < i - 1 ensures !OccursAt(s[1..], pat, j) {
      OccursShift(s, pat, j);
    }
  }

  lemma ReplaceAllRegroup(c: char, a: string, rep: string, rest: string, rest': string, pat: string)
    requires |pat| > 0 && rest == rest'
    ensures [c] + (a + rep + ReplaceAll(rest, pat, rep)) == [c] + a + rep + ReplaceAll(rest', pat, rep)
  {
    ConcatAssoc([c], a + rep, ReplaceAll(rest, pat, rep));
    ConcatAssoc([c], a, rep);
  }

  /**
    The leftmost occurrence is replaced, the text before it is kept, and the scan
    resumes right after it.
   */
  lemma {:induction false} ReplaceAllLeftmost(s: string, pat: string, rep: string, i: nat)
    requires |pat| > 0
    requires OccursAt(s, pat, i)
    requires forall j :: 0 <= j < i ==> !OccursAt(s, pat, j)
    ensures ReplaceAll(s, pat, rep) == s[..i] + rep + ReplaceAll(s[i + |pat|..], pat, rep)
    decreases i
  {
    if i == 0 {
      LeftmostAtStart(s, pat, rep);
    } else {
      var t, k := s[1..], i - 1;
      LeftmostInTail(s, pat, i);
      ReplaceAllLeftmost(t, pat, rep, k);
      LeftmostStep(s, t, pat, rep, i, k);
    }
  }

  /** An occurrence at the very start is replaced first. */
  lemma LeftmostAtStart(s: string, pat: string, rep: string)
    requires |pat| > 0 && OccursAt(s, pat, 0)
    ensures ReplaceAll(s, pat, rep) == s[..0] + rep + ReplaceAll(s[|pat|..], pat, rep)
  {
    assert s[..|pat|] == pat;
    assert s[..0] + rep == rep;
  }

  /** Copying the first character and then replacing in the tail is replacing in the whole text. */
  lemma LeftmostStep(s: string, t: string, pat: string, rep: string, i: nat, k: nat)
    requires |pat| > 0 && i == k + 1 && i + |pat| <= |s| && t == s[1..]
    requires forall j :: 0 <= j < i ==> !OccursAt(s, pat, j)
    requires ReplaceAll(t, pat, rep) == t[..k] + rep + ReplaceAll(t[k + |pat|..], pat, rep)
    ensures ReplaceAll(s, pat, rep) == s[..i] + rep + ReplaceAll(s[i + |pat|..], pat, rep)
  {
    assert !OccursAt(s, pat, 0);
    ReplaceAllSkip(s, pat, rep);
    ShiftedSlices(s, i, |pat|);
    ReplaceAllRegroup(s[0], t[..k], rep, t[k + |pat|..], s[i + |pat|..], pat);
  }


  /**
    When the pattern's first character does not recur in it, an occurrence right after a
    text free of the pattern is the leftmost one: that text is kept, the occurrence is
    replaced and the scan resumes after it.
   */
  lemma ReplaceAllAfterFree(a: string, pat: string, b: string, rep: string)
    requires |pat| > 0 && forall k :: 0 < k < |pat| ==> pat[k] != pat[0]
    requires forall j :: !OccursAt(a, pat, j)
    ensures ReplaceAll(a + pat + b, pat, rep) == a + rep + ReplaceAll(b, pat, rep)
  {
    var s := a + pat + b;
    assert s[|a|..|a| + |pat|] == pat;
    forall j | 0 <= j < |a| ensures !OccursAt(s, pat, j) {
      if j + |pat| <= |a| {
        assert s[j..j + |pat|] == a[j..j + |pat|];
        assert !OccursAt(a, pat, j);
      } else {
        assert s[j..j + |pat|][|a| - j] == s[|a|] == pat[0] != pat[|a| - j];
      }
    }
    ReplaceAllLeftmost(s, pat, rep, |a|);
    assert s[..|a|] == a;
    assert s[|a| + |pat|..] == b;
  }
}
