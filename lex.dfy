/**
 * Go's ordering of strings, and the ordering of the one-hot codes the
 * reputation comparison builds. Go compares strings byte by byte; for
 * well-formed UTF-8 that is the order of the code points, which is the
 * order used here on `char`. Dafny's own `<` on sequences means "proper
 * prefix", so the lexicographic order is written out.
 */
module Lex {

  /** Go's `a < b` on strings. */
  predicate StrLess(a: string, b: string) {
    if |a| == 0 then |b| > 0
    else if |b| == 0 then false
    else if a[0] != b[0] then a[0] < b[0]
    else StrLess(a[1..], b[1..])
  }

  lemma {:induction false} StrLessIrreflexive(a: string)
    ensures !StrLess(a, a)
  {
    if |a| > 0 { StrLessIrreflexive(a[1..]); }
  }

  lemma {:induction false} StrLessAsymmetric(a: string, b: string)
    ensures !(StrLess(a, b) && StrLess(b, a))
  {
    if |a| > 0 && |b| > 0 && a[0] == b[0] { StrLessAsymmetric(a[1..], b[1..]); }
  }

  /** Distinct strings are always ordered one way or the other. */
  lemma {:induction false} StrLessTotal(a: string, b: string)
    ensures a == b || StrLess(a, b) || StrLess(b, a)
  {
    if |a| > 0 && |b| > 0 && a[0] == b[0] {
      StrLessTotal(a[1..], b[1..]);
      if a[1..] == b[1..] { assert a == [a[0]] + a[1..] && b == [b[0]] + b[1..]; }
    }
  }

  lemma {:induction false} StrLessTransitive(a: string, b: string, c: string)
    requires StrLess(a, b) && StrLess(b, c)
    ensures StrLess(a, c)
  {
    if |a| > 0 && a[0] == b[0] && b[0] == c[0] { StrLessTransitive(a[1..], b[1..], c[1..]); }
  }

  /** `StrLess` is the lexicographic order: a proper prefix, or a smaller first differing character. */
  lemma {:induction false} StrLessIsLexicographic(a: string, b: string)
    ensures StrLess(a, b) <==>
      (|a| < |b| && a == b[..|a|]) ||
      (exists k :: 0 <= k < |a| && k < |b| && a[..k] == b[..k] && a[k] < b[k])
  {
    if |a| > 0 && |b| > 0 {
      StrLessIsLexicographic(a[1..], b[1..]);
      if a[0] == b[0] {
        if StrLess(a, b) && !(|a| < |b| && a == b[..|a|]) {
          var k :| 0 <= k < |a| - 1 && k < |b| - 1 && a[1..][..k] == b[1..][..k] && a[1..][k] < b[1..][k];
          assert a[..k + 1] == [a[0]] + a[1..][..k];
          assert b[..k + 1] == [b[0]] + b[1..][..k];
        }
        if exists k :: 0 <= k < |a| && k < |b| && a[..k] == b[..k] && a[k] < b[k] {
          var k :| 0 <= k < |a| && k < |b| && a[..k] == b[..k] && a[k] < b[k];
          assert k > 0;
          assert a[1..][..k - 1] == a[..k][1..];
          assert b[1..][..k - 1] == b[..k][1..];
        }
        if |a| < |b| && a == b[..|a|] {
          assert a[1..] == b[1..][..|a| - 1];
        }
      } else {
        assert a[..0] == b[..0];
      }
    }
  }

  /**
   * `a > b` on one-hot codes, a `true` standing for the character '1' and a
   * `false` for '0'.
   */
  predicate CodeGreater(a: seq<bool>, b: seq<bool>) {
    if |b| == 0 then |a| > 0
    else if |a| == 0 then false
    else if a[0] != b[0] then a[0]
    else CodeGreater(a[1..], b[1..])
  }

  /** The code written out as the '0'/'1' string the source builds. */
  function Render(code: seq<bool>): (s: string)
    ensures |s| == |code|
    ensures forall i :: 0 <= i < |code| ==> s[i] == if code[i] then '1' else '0'
  {
    if |code| == 0 then [] else [if code[0] then '1' else '0'] + Render(code[1..])
  }

  /** Comparing codes is comparing their renderings as Go strings. */
  lemma {:induction false} CodeGreaterIsStringGreater(a: seq<bool>, b: seq<bool>)
    ensures CodeGreater(a, b) <==> StrLess(Render(b), Render(a))
  {
    if |a| > 0 && |b| > 0 {
      CodeGreaterIsStringGreater(a[1..], b[1..]);
      assert Render(a)[1..] == Render(a[1..]);
      assert Render(b)[1..] == Render(b[1..]);
    }
  }

  /**
   * For codes of equal length, `a` is greater exactly when, at the first
   * position where the two differ, `a` holds the one.
   */
  lemma {:induction false} CodeGreaterAtFirstDifference(a: seq<bool>, b: seq<bool>)
    requires |a| == |b|
    ensures CodeGreater(a, b) <==> exists k :: 0 <= k < |a| && a[..k] == b[..k] && a[k] && !b[k]
  {
    if |a| > 0 {
      CodeGreaterAtFirstDifference(a[1..], b[1..]);
      if a[0] == b[0] {
        if CodeGreater(a, b) {
          var k :| 0 <= k < |a| - 1 && a[1..][..k] == b[1..][..k] && a[1..][k] && !b[1..][k];
          assert a[..k + 1] == [a[0]] + a[1..][..k];
          assert b[..k + 1] == [b[0]] + b[1..][..k];
        }
        if exists k :: 0 <= k < |a| && a[..k] == b[..k] && a[k] && !b[k] {
          var k :| 0 <= k < |a| && a[..k] == b[..k] && a[k] && !b[k];
          assert a[1..][..k - 1] == a[..k][1..];
          assert b[1..][..k - 1] == b[..k][1..];
        }
      } else {
        assert a[..0] == b[..0];
      }
    }
  }

  /** Equal codes: neither is greater, so a tie. */
  lemma {:induction false} CodeGreaterIrreflexive(a: seq<bool>)
    ensures !CodeGreater(a, a)
  {
    if |a| > 0 { CodeGreaterIrreflexive(a[1..]); }
  }
}
