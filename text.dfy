/**
 * The two ways the SQL builders of storage/sqlite3/nodereputation.go grow a
 * string over a list: appending one piece per element, and appending one
 * piece per element unless the element has none, which clears the text.
 * Both are stated over the piece function so that their lemmas hold for
 * every clause builder.
 */
module Text {
  import opened Wrappers

  /** The pieces of `xs`, first to last, concatenated. */
  function Concat<T>(xs: seq<T>, piece: T -> string): string {
    if |xs| == 0 then ""
    else Concat(xs[..|xs| - 1], piece) + piece(xs[|xs| - 1])
  }

  /**
   * Starting from `start`, appends each element's piece; an element without
   * a piece resets the text to the empty string.
   */
  function Accumulate<T>(start: string, xs: seq<T>, piece: T -> Option<string>): string {
    if |xs| == 0 then start
    else
      match piece(xs[|xs| - 1])
      case None => ""
      case Some(p) => Accumulate(start, xs[..|xs| - 1], piece) + p
  }

  /** `t` is a suffix of `s`. */
  predicate EndsWith(s: string, t: string) {
    |t| <= |s| && s[|s| - |t|..] == t
  }

  /** The pieces of a concatenation are the pieces of each part. */
  lemma {:induction false} ConcatAppend<T>(a: seq<T>, b: seq<T>, piece: T -> string)
    ensures Concat(a + b, piece) == Concat(a, piece) + Concat(b, piece)
    decreases |b|
  {
    if |b| == 0 {
      assert a + b == a;
    } else {
      var b' := b[..|b| - 1];
      ConcatAppend(a, b', piece);
      assert (a + b)[..|a + b| - 1] == a + b';
    }
  }

  /** A single element contributes its piece. */
  lemma ConcatSingle<T>(x: T, piece: T -> string)
    ensures Concat([x], piece) == piece(x)
  {
    assert [x][..0] == [];
  }

  /** An element whose piece is empty can be removed. */
  lemma ConcatSkip<T>(a: seq<T>, x: T, b: seq<T>, piece: T -> string)
    requires piece(x) == ""
    ensures Concat(a + [x] + b, piece) == Concat(a + b, piece)
  {
    ConcatAppend(a + [x], b, piece);
    ConcatAppend(a, [x], piece);
    ConcatAppend(a, b, piece);
    ConcatSingle(x, piece);
  }

  /**
   * When every element has a piece, the accumulated text is `start`
   * followed by all pieces in order (`text` gives each element's piece).
   */
  lemma {:induction false} AccumulateAllPresent<T>(start: string, xs: seq<T>, piece: T -> Option<string>, text: T -> string)
    requires forall i :: 0 <= i < |xs| ==> piece(xs[i]) == Some(text(xs[i]))
    ensures Accumulate(start, xs, piece) == start + Concat(xs, text)
  {
    if |xs| > 0 {
      AccumulateAllPresent(start, xs[..|xs| - 1], piece, text);
    }
  }

  /**
   * After the last element without a piece, at index `k`, only the pieces of
   * the elements after it remain; `start` is lost.
   */
  lemma {:induction false} AccumulateAfterReset<T>(start: string, xs: seq<T>, piece: T -> Option<string>, text: T -> string, k: nat)
    requires k < |xs| && piece(xs[k]).None?
    requires forall i :: k < i < |xs| ==> piece(xs[i]) == Some(text(xs[i]))
    ensures Accumulate(start, xs, piece) == Concat(xs[k + 1..], text)
    decreases |xs|
  {
    if k == |xs| - 1 {
      assert xs[k + 1..] == [];
    } else {
      var init := xs[..|xs| - 1];
      AccumulateAfterReset(start, init, piece, text, k);
      assert xs[k + 1..][..|xs[k + 1..]| - 1] == init[k + 1..];
    }
  }

  /** Appending to a text keeps what it ended with behind the new end. */
  lemma EndsWithAppend(a: string, t: string)
    ensures EndsWith(a + t, t)
  {
    assert (a + t)[|a + t| - |t|..] == t;
  }
}
