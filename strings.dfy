/**
 * The Python string operations the key logic relies on, with Python's semantics for a
 * one-character separator (`str.split`), a non-empty pattern (`str.replace`) and
 * `str.startswith`.
 */
module Strings {

  /** Position of the first `c` in `s`, or `|s|` when `s` has none. */
  function IndexOf(s: string, c: char): (i: nat)
    ensures i <= |s|
    ensures i < |s| ==> s[i] == c
    ensures forall j :: 0 <= j < i ==> s[j] != c
    ensures i == |s| <==> c !in s
  {
    if |s| == 0 then 0
    else if s[0] == c then 0
    else 1 + IndexOf(s[1..], c)
  }

  /** The part of `s` before its first `c`; all of `s` when it has none. */
  function Before(s: string, c: char): string
  {
    s[..IndexOf(s, c)]
  }

  /** The part of `s` after its first `c`. */
  function After(s: string, c: char): string
    requires c in s
  {
    s[IndexOf(s, c) + 1..]
  }

  /** `sep.join(parts)` for a one-character separator. */
  function Join(parts: seq<string>, sep: char): string
  {
    if |parts| == 0 then ""
    else if |parts| == 1 then parts[0]
    else parts[0] + [sep] + Join(parts[1..], sep)
  }

  /**
   * `s.split(sep)`: the pieces between the occurrences of `sep`, empty pieces included.
   * It always has at least one piece, and a second one exactly when `sep` occurs.
   */
  function Split(s: string, sep: char): (parts: seq<string>)
    ensures |parts| >= 1
    ensures parts[0] == Before(s, sep)
    ensures |parts| >= 2 <==> sep in s
    ensures sep in s ==> parts[1] == Before(After(s, sep), sep)
    ensures forall k :: 0 <= k < |parts| ==> sep !in parts[k]
    ensures Join(parts, sep) == s
    decreases |s|
  {
    var i := IndexOf(s, sep);
    if i == |s| then [s]
    else
      var rest := Split(s[i + 1..], sep);
      assert s == s[..i] + [sep] + s[i + 1..];
      [s[..i]] + rest
  }

  /** `s.startswith(prefix)`. */
  predicate StartsWith(s: string, prefix: string)
  {
    |prefix| <= |s| && s[..|prefix|] == prefix
  }

  /** `pat` occurs in `s` at position `i`. */
  predicate OccursAt(s: string, pat: string, i: nat)
  {
    i + |pat| <= |s| && s[i..i + |pat|] == pat
  }

  /** `pat in s` for strings. */
  predicate Contains(s: string, pat: string)
  {
    exists i: nat | i <= |s| :: OccursAt(s, pat, i)
  }

  /**
   * `s.replace(pat, rep)` for a non-empty `pat`: scanning left to right, every
   * non-overlapping occurrence of `pat` is replaced by `rep`.
   */
  function ReplaceAll(s: string, pat: string, rep: string): string
    requires |pat| > 0
    decreases |s|
  {
    if |s| < |pat| then s
    else if s[..|pat|] == pat then rep + ReplaceAll(s[|pat|..], pat, rep)
    else [s[0]] + ReplaceAll(s[1..], pat, rep)
  }

  /** A string in which `pat` does not occur comes back unchanged. */
  lemma {:induction false} ReplaceAllUnchanged(s: string, pat: string, rep: string)
    requires |pat| > 0
    ensures !Contains(s, pat) ==> ReplaceAll(s, pat, rep) == s
    decreases |s|
  {
    if |s| >= |pat| && !Contains(s, pat) {
      assert !OccursAt(s, pat, 0);
      ContainsTail(s, pat);
      ReplaceAllUnchanged(s[1..], pat, rep);
      assert s == [s[0]] + s[1..];
    }
  }

  /** An occurrence in the tail of `s` is an occurrence in `s`. */
  lemma ContainsTail(s: string, pat: string)
    requires |s| > 0
    ensures Contains(s[1..], pat) ==> Contains(s, pat)
  {
    if Contains(s[1..], pat) {
      var i: nat :| i <= |s[1..]| && OccursAt(s[1..], pat, i);
      assert s[1..][i..i + |pat|] == s[i + 1..i + 1 + |pat|];
      assert OccursAt(s, pat, i + 1);
    }
  }

  /** A string without the pattern's first character has no occurrence of it. */
  lemma NoFirstCharNoOccurrence(s: string, pat: string)
    requires |pat| > 0 && pat[0] !in s
    ensures !Contains(s, pat)
  {
    forall i: nat | i <= |s| ensures !OccursAt(s, pat, i) {
      if i + |pat| <= |s| {
        assert s[i..i + |pat|][0] == s[i];
      }
    }
  }

  /** A leading occurrence of `pat` is replaced and the scan resumes after it. */
  lemma ReplaceAllLeadingMatch(pat: string, rep: string, rest: string)
    requires |pat| > 0
    ensures ReplaceAll(pat + rest, pat, rep) == rep + ReplaceAll(rest, pat, rep)
  {
    assert (pat + rest)[..|pat|] == pat;
    assert (pat + rest)[|pat|..] == rest;
  }

  /** Occurrences in the tail of `s` are the occurrences in `s` one position later. */
  lemma OccursInTail(s: string, pat: string, j: nat)
    requires |s| > 0
    ensures OccursAt(s[1..], pat, j) <==> OccursAt(s, pat, j + 1)
  {
    if j + 1 + |pat| <= |s| {
      assert s[1..][j..j + |pat|] == s[j + 1..j + 1 + |pat|];
    }
  }

  /** The leftmost occurrence of `pat` in a string that contains it. */
  lemma {:induction false} FirstOccurrence(s: string, pat: string) returns (i: nat)
    requires |pat| > 0 && Contains(s, pat)
    ensures OccursAt(s, pat, i)
    ensures forall j: nat :: j < i ==> !OccursAt(s, pat, j)
    decreases |s|
  {
    if OccursAt(s, pat, 0) {
      i := 0;
    } else {
      var k: nat :| k <= |s| && OccursAt(s, pat, k);
      assert k > 0;
      OccursInTail(s, pat, k - 1);
      var i' := FirstOccurrence(s[1..], pat);
      i := i' + 1;
      OccursInTail(s, pat, i');
      forall j: nat | j < i ensures !OccursAt(s, pat, j) {
        if j > 0 {
          OccursInTail(s, pat, j - 1);
        }
      }
    }
  }

  /**
   * The scan up to the leftmost occurrence: everything before it is copied, the occurrence
   * is replaced, and the scan goes on right after it.
   */
  lemma {:induction false} ReplaceAllAtFirstOccurrence(s: string, pat: string, rep: string, i: nat)
    requires |pat| > 0 && OccursAt(s, pat, i)
    requires forall j: nat :: j < i ==> !OccursAt(s, pat, j)
    ensures ReplaceAll(s, pat, rep) == s[..i] + rep + ReplaceAll(s[i + |pat|..], pat, rep)
    decreases i
  {
    if i == 0 {
      assert s[..0] + rep == rep;
    } else {
      var t := s[1..];
      var tail := ReplaceAll(s[i + |pat|..], pat, rep);
      assert ReplaceAll(t, pat, rep) == t[..i - 1] + rep + tail by {
        OccursInTail(s, pat, i - 1);
        forall j: nat | j < i - 1 ensures !OccursAt(t, pat, j) {
          OccursInTail(s, pat, j);
        }
        ReplaceAllAtFirstOccurrence(t, pat, rep, i - 1);
        assert t[i - 1 + |pat|..] == s[i + |pat|..];
      }
      assert !OccursAt(s, pat, 0);
      CopiedStep(s, pat, rep, i, tail);
    }
  }

  /** A first character that starts no occurrence is copied in front of the tail's result. */
  lemma CopiedStep(s: string, pat: string, rep: string, i: nat, tail: string)
    requires |pat| > 0 && 0 < i && i + |pat| <= |s| && !OccursAt(s, pat, 0)
    requires ReplaceAll(s[1..], pat, rep) == s[1..][..i - 1] + rep + tail
    ensures ReplaceAll(s, pat, rep) == s[..i] + rep + tail
  {
    assert ReplaceAll(s, pat, rep) == [s[0]] + ReplaceAll(s[1..], pat, rep);
    ConsPrefix(s, i);
    ConsRegroup(s[0], s[1..][..i - 1], rep, tail);
  }

  /** The first character followed by the next `i - 1` is the prefix of length `i`. */
  lemma ConsPrefix(s: string, i: nat)
    requires 0 < i <= |s|
    ensures [s[0]] + s[1..][..i - 1] == s[..i]
  {
  }

  /** A character in front of a three-part concatenation, regrouped. */
  lemma ConsRegroup(c: char, b: string, m: string, x: string)
    ensures [c] + (b + m + x) == ([c] + b) + m + x
  {
  }

  /**
   * `rep` can continue a proper suffix of `pat` that starts at position `d`: then a copied
   * stretch ending in `pat[..d]` followed by `rep` would spell `pat` again.
   */
  predicate OverlapsAt(pat: string, rep: string, d: nat)
  {
    d <= |pat| && |pat| - d <= |rep| && pat[d..] == rep[..|pat| - d]
  }

  /**
   * After replacing, no occurrence of `pat` is left, provided the replacement cannot
   * recreate one: it does not contain `pat`'s first character, is at least as long as
   * `pat`, and cannot continue any proper suffix of `pat`.
   */
  lemma {:induction false} ReplaceAllLeavesNone(s: string, pat: string, rep: string)
    requires |pat| > 0 && |pat| <= |rep| && pat[0] !in rep
    requires forall d :: 0 < d < |pat| ==> !OverlapsAt(pat, rep, d)
    ensures !Contains(ReplaceAll(s, pat, rep), pat)
    decreases |s|
  {
    ReplaceAllUnchanged(s, pat, rep);
    if Contains(s, pat) {
      var i := FirstOccurrence(s, pat);
      ReplaceAllAtFirstOccurrence(s, pat, rep, i);
      var a := s[..i];
      var t := s[i + |pat|..];
      ReplaceAllLeavesNone(t, pat, rep);
      var r := ReplaceAll(t, pat, rep);
      forall q: nat | q <= |a + rep + r| ensures !OccursAt(a + rep + r, pat, q) {
        NoOccurrenceAt(s, pat, rep, i, r, q);
      }
    }
  }

  /** One position of `s[..i] + rep + r`, where `i` is the leftmost occurrence in `s`. */
  lemma NoOccurrenceAt(s: string, pat: string, rep: string, i: nat, r: string, q: nat)
    requires |pat| > 0 && |pat| <= |rep| && pat[0] !in rep
    requires forall d :: 0 < d < |pat| ==> !OverlapsAt(pat, rep, d)
    requires OccursAt(s, pat, i) && forall j: nat :: j < i ==> !OccursAt(s, pat, j)
    requires !Contains(r, pat)
    ensures !OccursAt(s[..i] + rep + r, pat, q)
  {
    var a := s[..i];
    var out := a + rep + r;
    if OccursAt(out, pat, q) {
      var m := out[q..q + |pat|];
      if q >= |a| + |rep| {
        var p := q - |a| - |rep|;
        assert m == r[p..p + |pat|];
        assert OccursAt(r, pat, p);
      } else if q >= |a| {
      } else if q + |pat| <= |a| {
        assert m == s[q..q + |pat|];
        assert OccursAt(s, pat, q);
      } else {
        var d := |a| - q;
        assert pat[d..] == m[d..];
        assert m[d..] == rep[..|pat| - d];
        assert OverlapsAt(pat, rep, d);
      }
    }
  }

  /** A prefix without the first character of `pat` cannot start an occurrence and is copied. */
  lemma {:induction false} ReplaceAllCopiesClean(x: string, rest: string, pat: string, rep: string)
    requires |pat| > 0 && pat[0] !in x
    ensures ReplaceAll(x + rest, pat, rep) == x + ReplaceAll(rest, pat, rep)
  {
    if |x| > 0 {
      var s := x + rest;
      assert s[1..] == x[1..] + rest;
      if |s| >= |pat| {
        assert s[..|pat|][0] == x[0];
      }
      ReplaceAllCopiesClean(x[1..], rest, pat, rep);
      assert s == [x[0]] + (x[1..] + rest);
      assert x == [x[0]] + x[1..];
    } else {
      assert x + rest == rest;
    }
  }

  /**
   * Both occurrences in `pat x pat y` are replaced when `x` cannot start an occurrence
   * and `y` has none.
   */
  lemma ReplaceAllTwoOccurrences(pat: string, rep: string, x: string, y: string)
    requires |pat| > 0 && pat[0] !in x && !Contains(y, pat)
    ensures ReplaceAll(pat + x + pat + y, pat, rep) == rep + x + rep + y
  {
    var second := pat + y;
    var tail := x + second;
    ReplaceAllLeadingMatch(pat, rep, y);
    ReplaceAllUnchanged(y, pat, rep);
    ReplaceAllCopiesClean(x, second, pat, rep);
    ReplaceAllLeadingMatch(pat, rep, tail);
    Regroup(pat, x, pat, y);
    Regroup(rep, x, rep, y);
  }

  /** Concatenation of four strings, regrouped to the right. */
  lemma Regroup(a: string, b: string, c: string, d: string)
    ensures a + b + c + d == a + (b + (c + d))
  {
  }

  /** Where the first `c` of a concatenation lies. */
  lemma {:induction false} IndexOfAppend(a: string, b: string, c: char)
    ensures IndexOf(a + b, c) == if c in a then IndexOf(a, c) else |a| + IndexOf(b, c)
  {
    if |a| == 0 {
      assert a + b == b;
    } else {
      assert (a + b)[1..] == a[1..] + b;
      IndexOfAppend(a[1..], b, c);
    }
  }

  /** A prefix of a concatenation that stays inside the left part. */
  lemma TakeOfAppend(a: string, b: string, k: nat)
    requires k <= |a|
    ensures (a + b)[..k] == a[..k]
  {
  }

  /** A prefix of a concatenation that reaches into the right part. */
  lemma TakePastAppend(a: string, b: string, k: nat)
    requires k <= |b|
    ensures (a + b)[..|a| + k] == a + b[..k]
  {
  }

  /** What follows the left part of a concatenation. */
  lemma DropOfAppend(a: string, b: string)
    ensures (a + b)[|a|..] == b
  {
  }

  /** Without `c`, the part before the first `c` is everything. */
  lemma BeforeAbsent(s: string, c: char)
    requires c !in s
    ensures Before(s, c) == s
  {
  }

  /** The text before a separator that does not occur earlier. */
  lemma BeforeSeparator(a: string, b: string, c: char)
    requires c !in a
    ensures Before(a + [c] + b, c) == a
  {
    assert a + [c] + b == a + ([c] + b);
    IndexOfAppend(a, [c] + b, c);
    assert (a + ([c] + b))[..|a|] == a;
  }

  /**
   * `Split` is the only way to cut a string into pieces free of `sep` that join back to it,
   * so it agrees with any other decomposition of that kind.
   */
  lemma {:induction false} SplitUnique(parts: seq<string>, sep: char)
    requires |parts| >= 1
    requires forall k :: 0 <= k < |parts| ==> sep !in parts[k]
    ensures Split(Join(parts, sep), sep) == parts
  {
    if |parts| > 1 {
      var tail := Join(parts[1..], sep);
      var s := Join(parts, sep);
      assert s == parts[0] + ([sep] + tail);
      IndexOfAppend(parts[0], [sep] + tail, sep);
      var i := IndexOf(s, sep);
      assert i == |parts[0]|;
      assert s[..i] == parts[0];
      assert s[i + 1..] == tail;
      SplitUnique(parts[1..], sep);
      assert Split(s, sep) == [parts[0]] + parts[1..];
    }
  }
}
