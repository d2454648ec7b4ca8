/**
 * The parts of Go's `strings` package that the core relies on, over `seq<char>`
 * (one `char` per rune).
 */
module Strings {

  /** strings.HasPrefix: `p` is an initial segment of `s`. */
  predicate HasPrefix(p: string, s: string)
  {
    |p| <= |s| && s[..|p|] == p
  }

  /** strings.HasSuffix: `t` is a final segment of `s`. */
  predicate HasSuffix(s: string, t: string)
  {
    |t| <= |s| && s[|s| - |t|..] == t
  }

  /** `t` occurs somewhere in `s` (strings.Contains). */
  predicate Contains(s: string, t: string)
  {
    exists i :: 0 <= i <= |s| && HasPrefix(t, s[i..])
  }

  /** What strings.ReplaceAll does when `pat` is empty: `rep` before every rune and at the end. */
  function InsertEverywhere(s: string, rep: string): (r: string)
    ensures |r| == |s| + (|s| + 1) * |rep|
  {
    if s == [] then rep else rep + [s[0]] + InsertEverywhere(s[1..], rep)
  }

  /**
   * strings.ReplaceAll(s, pat, rep), with Go's `old` and `new` named `pat` and `rep`: the non-overlapping occurrences of `pat`, found from
   * left to right, are replaced by `rep`; the text between them is copied.
   */
  function ReplaceAll(s: string, pat: string, rep: string): string
    decreases |s|
  {
    if |pat| == 0 then InsertEverywhere(s, rep)
    else if |s| < |pat| then s
    else if s[..|pat|] == pat then rep + ReplaceAll(s[|pat|..], pat, rep)
    else [s[0]] + ReplaceAll(s[1..], pat, rep)
  }

  /** Where `pat` occurs nowhere, ReplaceAll copies its input. */
  lemma {:induction false} ReplaceAllAbsent(s: string, pat: string, rep: string)
    requires |pat| > 0
    requires !Contains(s, pat)
    ensures ReplaceAll(s, pat, rep) == s
    decreases |s|
  {
    if |s| >= |pat| {
      assert s[0..] == s;
      assert !HasPrefix(pat, s[0..]);
      assert !Contains(s[1..], pat) by {
        forall i | 0 <= i <= |s[1..]| ensures !HasPrefix(pat, s[1..][i..]) {
          assert s[1..][i..] == s[i + 1..];
        }
      }
      ReplaceAllAbsent(s[1..], pat, rep);
      assert s == [s[0]] + s[1..];
    }
  }

  /**
   * ReplaceAll passes a leading text `t` through unchanged when no occurrence of `pat`
   * starts inside it: `pat` starts with a character `c` that `t` holds only at its first
   * position, and `pat` does not start at `t`'s first position either.
   */
  lemma {:induction false} ReplaceAllSkips(t: string, rest: string, pat: string, rep: string)
    requires |pat| > 0 && |t| > 0
    requires pat[0] !in t[1..]
    requires !HasPrefix(pat, t + rest)
    ensures ReplaceAll(t + rest, pat, rep) == t + ReplaceAll(rest, pat, rep)
    decreases |t|
  {
    SkipHead(t, rest, pat, rep);
    if |t| > 1 {
      SkipTailFits(t, rest, pat);
      ReplaceAllSkips(t[1..], rest, pat, rep);
      assert [t[0]] + (t[1..] + ReplaceAll(rest, pat, rep)) == ([t[0]] + t[1..]) + ReplaceAll(rest, pat, rep);
      assert [t[0]] + t[1..] == t;
    } else {
      assert t[1..] + rest == rest && [t[0]] == t;
    }
  }

  /** The first rune of `t + rest` starts no `pat`, so ReplaceAll copies it. */
  lemma {:induction false} SkipHead(t: string, rest: string, pat: string, rep: string)
    requires |pat| > 0 && |t| > 0 && !HasPrefix(pat, t + rest)
    ensures ReplaceAll(t + rest, pat, rep) == [t[0]] + ReplaceAll(t[1..] + rest, pat, rep)
  {
    ReplaceAllStep(t + rest, pat, rep);
    assert (t + rest)[1..] == t[1..] + rest;
  }

  /** The conditions of ReplaceAllSkips carry over from `t` to `t[1..]`. */
  lemma {:induction false} SkipTailFits(t: string, rest: string, pat: string)
    requires |pat| > 0 && |t| > 1 && pat[0] !in t[1..]
    ensures pat[0] !in t[1..][1..] && !HasPrefix(pat, t[1..] + rest)
  {
    var t' := t[1..];
    forall c | 0 <= c < |t'[1..]| ensures t'[1..][c] != pat[0] {
      assert t'[1..][c] == t[1..][c + 1];
    }
    assert (t' + rest)[0] == t[1..][0];
  }

  /** ReplaceAll takes one rune at a time where `pat` does not start. */
  lemma {:induction false} ReplaceAllStep(s: string, pat: string, rep: string)
    requires |pat| > 0 && s != [] && !HasPrefix(pat, s)
    ensures ReplaceAll(s, pat, rep) == [s[0]] + ReplaceAll(s[1..], pat, rep)
  {
  }
}
