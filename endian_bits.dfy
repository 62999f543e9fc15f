/**
 * One position of the one-hot codes by which two reputation records are
 * compared: for each column, the pair (row's bit, other's bit), a `true`
 * standing for the character '1'.
 */
module EndianBits {
  import opened Records
  import opened Lex
  import Ratio

  /** The more recent of two records of the same node gets the one. */
  function TimestampBits(row: Record, other: Record): (bool, bool) {
    if StrLess(other.timestamp, row.timestamp) && row.nodeName == other.nodeName then (true, false)
    else if StrLess(row.timestamp, other.timestamp) && row.nodeName == other.nodeName then (false, true)
    else (false, false)
  }

  /** Each record gets a one when it has no modified shards; both may. */
  function ShardsBits(row: Record, other: Record): (bool, bool) {
    (!(row.shardsModified > 0), !(other.shardsModified > 0))
  }

  /** The record with the larger value gets the one; an equal value gives none. */
  function HigherBits(a: int, b: int): (bool, bool) {
    if a > b then (true, false) else if a < b then (false, true) else (false, false)
  }

  /** The record with the smaller value gets the one; an equal value gives none. */
  function LowerBits(a: int, b: int): (bool, bool) {
    if a < b then (true, false) else if a > b then (false, true) else (false, false)
  }

  /** As `HigherBits`, for ratios: incomparable ratios (a NaN) give none. */
  function RatioBits(x: Ratio.Real, y: Ratio.Real): (bool, bool) {
    if Ratio.Greater(x, y) then (true, false) else if Ratio.Greater(y, x) then (false, true) else (false, false)
  }

  /** Every kind of position except the shards position gives at most one of the two records a one. */
  lemma AtMostOneOne(row: Record, other: Record, x: Ratio.Real, y: Ratio.Real)
    requires Ratio.Valid(x) && Ratio.Valid(y)
    ensures !(TimestampBits(row, other).0 && TimestampBits(row, other).1)
    ensures !(RatioBits(x, y).0 && RatioBits(x, y).1)
    ensures forall a, b :: !(HigherBits(a, b).0 && HigherBits(a, b).1)
    ensures forall a, b :: !(LowerBits(a, b).0 && LowerBits(a, b).1)
  {
    StrLessAsymmetric(row.timestamp, other.timestamp);
    Ratio.GreaterAsymmetric(x, y);
  }
}
