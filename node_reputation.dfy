/**
 * pkg/nodereputation/noderepuation.go: the second version of the reputation
 * algebra. `endian` takes the columns to compare, most significant first,
 * and the audit ratio is guarded against an empty or negative total.
 * (`performOp`, `morphism` and `newReputationRow` are the `Records` ones.)
 */
module NodeReputation {
  import opened Int64
  import opened Records
  import opened Lex
  import opened EndianBits
  import opened Wrappers
  import Ratio

  /**
   * `auditSuccessRatio`: success / (success + fail), the sum taken in 64-bit
   * arithmetic, and 0 when that sum is not positive.
   */
  function AuditSuccessRatio(row: Record): (r: Ratio.Real)
    ensures r.Frac? && r.den > 0
    ensures Wrap(row.auditSuccess + row.auditFail) <= 0 ==> r.num == 0
    ensures Wrap(row.auditSuccess + row.auditFail) > 0 ==>
      r.num == row.auditSuccess && r.den == Wrap(row.auditSuccess + row.auditFail)
  {
    var total := Wrap(row.auditSuccess + row.auditFail);
    if total > 0 then Ratio.Frac(row.auditSuccess, total) else Ratio.Frac(0, 1)
  }

  /** With non-negative counters and no overflow the ratio lies between 0 and 1. */
  lemma AuditSuccessRatioBounds(row: Record)
    requires row.auditSuccess >= 0 && row.auditFail >= 0
    requires row.auditSuccess + row.auditFail <= MAX
    ensures var r := AuditSuccessRatio(row); 0 <= r.num <= r.den
  {
  }

  /**
   * The pair of bits column `col` adds to the two codes, or nothing for a
   * column `endian` does not recognise.
   */
  function Contribution(row: Record, other: Record, col: Column): Option<(bool, bool)> {
    match col
    case Timestamp => Some(TimestampBits(row, other))
    case ShardsModified => Some(ShardsBits(row, other))
    case FalseClaims => Some(LowerBits(row.falseClaims, other.falseClaims))
    case AuditSuccess => Some(RatioBits(AuditSuccessRatio(row), AuditSuccessRatio(other)))
    case Uptime => Some(HigherBits(row.uptime, other.uptime))
    case Latency => Some(LowerBits(row.latency, other.latency))
    case AmountOfDataStored => Some(HigherBits(row.amountOfDataStored, other.amountOfDataStored))
    case _ => None
  }

  /** The columns `endian` has a case for. */
  predicate IsRecognised(c: Column) {
    !(c.Source? || c.NodeName? || c.LastSeen? || c.AuditFail?)
  }

  /** The columns of `order` that `endian` recognises, in order. */
  function Recognised(order: seq<Column>): (r: seq<Column>)
    ensures |r| <= |order|
  {
    if |order| == 0 then []
    else
      var c := order[|order| - 1];
      Recognised(order[..|order| - 1]) + (if IsRecognised(c) then [c] else [])
  }

  /** The two codes `endian` builds for `order`. */
  function Codes(row: Record, other: Record, order: seq<Column>): (c: (seq<bool>, seq<bool>))
    ensures |c.0| == |Recognised(order)| && |c.1| == |Recognised(order)|
  {
    if |order| == 0 then ([], [])
    else
      var prev := Codes(row, other, order[..|order| - 1]);
      match Contribution(row, other, order[|order| - 1])
      case None => prev
      case Some(bits) => (prev.0 + [bits.0], prev.1 + [bits.1])
  }

  /** The record `endian` returns: `row` when its code is the greater, otherwise `other`. */
  function Winner(row: Record, other: Record, order: seq<Column>): Record {
    var c := Codes(row, other, order);
    if CodeGreater(c.0, c.1) then row else other
  }

  /**
   * The two codes have one position per recognised column of `order`, that
   * position holds the column's bits, and unrecognised columns add nothing.
   */
  lemma {:induction false} CodesStructure(row: Record, other: Record, order: seq<Column>)
    ensures var c := Codes(row, other, order); var r := Recognised(order);
      |c.0| == |r| && |c.1| == |r| &&
      forall k :: 0 <= k < |r| ==> Contribution(row, other, r[k]) == Some((c.0[k], c.1[k]))
  {
    if |order| > 0 {
      CodesStructure(row, other, order[..|order| - 1]);
    }
  }

  /** At every position except those of shardsModified, at most one of the two codes holds a one. */
  lemma CodesAtMostOneOne(row: Record, other: Record, order: seq<Column>)
    ensures var c := Codes(row, other, order); var r := Recognised(order);
      forall k :: 0 <= k < |r| && r[k] != ShardsModified ==> !(c.0[k] && c.1[k])
  {
    CodesStructure(row, other, order);
    AtMostOneOne(row, other, AuditSuccessRatio(row), AuditSuccessRatio(other));
  }

  /**
   * `endian`: walks `orderOfEval`, writing each recognised column's bits to
   * the two codes, then returns `row` if its code is the greater.
   */
  method Endian(row: Record, other: Record, order: seq<Column>) returns (res: Record)
    ensures res == Winner(row, other, order)
    ensures res == row || res == other
  {
    var rowCode: seq<bool> := [];
    var otherCode: seq<bool> := [];
    for i := 0 to |order|
      invariant (rowCode, otherCode) == Codes(row, other, order[..i])
    {
      assert order[..i + 1][..i] == order[..i];
      match order[i]
      case Timestamp =>
        var bits := TimestampBits(row, other);
        rowCode, otherCode := rowCode + [bits.0], otherCode + [bits.1];
      case ShardsModified =>
        rowCode := rowCode + [!(row.shardsModified > 0)];
        otherCode := otherCode + [!(other.shardsModified > 0)];
      case FalseClaims =>
        var bits := LowerBits(row.falseClaims, other.falseClaims);
        rowCode, otherCode := rowCode + [bits.0], otherCode + [bits.1];
      case AuditSuccess =>
        var bits := RatioBits(AuditSuccessRatio(row), AuditSuccessRatio(other));
        rowCode, otherCode := rowCode + [bits.0], otherCode + [bits.1];
      case Uptime =>
        var bits := HigherBits(row.uptime, other.uptime);
        rowCode, otherCode := rowCode + [bits.0], otherCode + [bits.1];
      case Latency =>
        var bits := LowerBits(row.latency, other.latency);
        rowCode, otherCode := rowCode + [bits.0], otherCode + [bits.1];
      case AmountOfDataStored =>
        var bits := HigherBits(row.amountOfDataStored, other.amountOfDataStored);
        rowCode, otherCode := rowCode + [bits.0], otherCode + [bits.1];
      case _ =>
    }
    assert order[..|order|] == order;
    if CodeGreater(rowCode, otherCode) {
      res := row;
    } else {
      res := other;
    }
  }

  /**
   * The winner is decided by the first column of `order` at which the codes
   * differ: `row` wins exactly when it holds the one there.
   */
  lemma DecidedAtFirstDifference(row: Record, other: Record, order: seq<Column>)
    ensures var c := Codes(row, other, order);
      Winner(row, other, order) ==
        if exists k :: 0 <= k < |c.0| && c.0[..k] == c.1[..k] && c.0[k] && !c.1[k] then row else other
  {
    CodesStructure(row, other, order);
    CodeGreaterAtFirstDifference(Codes(row, other, order).0, Codes(row, other, order).1);
  }

  /** Columns `endian` does not recognise can be dropped from the order without effect. */
  lemma {:induction false} UnrecognisedColumnsIgnored(row: Record, other: Record, order: seq<Column>)
    ensures Codes(row, other, order) == Codes(row, other, Recognised(order))
  {
    if |order| > 0 {
      var init, c := order[..|order| - 1], order[|order| - 1];
      UnrecognisedColumnsIgnored(row, other, init);
      var r := Recognised(init);
      if IsRecognised(c) {
        var rc := r + [c];
        assert rc[..|rc| - 1] == r && rc[|rc| - 1] == c;
        assert Recognised(order) == rc;
      } else {
        assert r + [] == r;
        assert Recognised(order) == r;
        assert Codes(row, other, order) == Codes(row, other, init);
      }
    }
  }

  /** An order made only of recognised columns is its own recognised part. */
  lemma {:induction false} AllRecognised(order: seq<Column>)
    requires forall i :: 0 <= i < |order| ==> IsRecognised(order[i])
    ensures Recognised(order) == order
  {
    if |order| > 0 {
      AllRecognised(order[..|order| - 1]);
      assert order[..|order| - 1] + [order[|order| - 1]] == order;
    }
  }

  /** The order `endianReputation` uses, most significant first. */
  const FixedOrder: seq<Column> :=
    [Timestamp, ShardsModified, FalseClaims, AuditSuccess, Uptime, Latency, AmountOfDataStored]

  /** The comparison `endianReputation` folds. */
  function FixedWinner(row: Record, other: Record): Record {
    Winner(row, other, FixedOrder)
  }

  /** Under the fixed order, of two records of the same node the more recent one wins. */
  lemma NewerRecordWins(row: Record, other: Record)
    requires row.nodeName == other.nodeName && StrLess(other.timestamp, row.timestamp)
    ensures FixedWinner(row, other) == row && FixedWinner(other, row) == row
  {
    StrLessAsymmetric(row.timestamp, other.timestamp);
    FirstPositionDecides(row, other);
    FirstPositionDecides(other, row);
  }

  /** Under the fixed order, when the timestamps tie, a record with modified shards loses to one without. */
  lemma ModifiedShardsLose(row: Record, other: Record)
    requires TimestampBits(row, other) == (false, false)
    requires (row.shardsModified > 0) != (other.shardsModified > 0)
    ensures FixedWinner(row, other) == if row.shardsModified > 0 then other else row
  {
    var c := FixedCodes(row, other);
    assert c.0[0] == c.1[0] && c.0[1] != c.1[1];
    assert CodeGreater(c.0, c.1) == CodeGreater(c.0[1..], c.1[1..]);
  }

  lemma FirstPositionDecides(row: Record, other: Record)
    requires TimestampBits(row, other).0 != TimestampBits(row, other).1
    ensures FixedWinner(row, other) == if TimestampBits(row, other).0 then row else other
  {
    var c := FixedCodes(row, other);
    assert c.0[0] == TimestampBits(row, other).0 && c.1[0] == TimestampBits(row, other).1;
  }

  /** The fixed-order codes, written out position by position. */
  lemma FixedCodes(row: Record, other: Record) returns (c: (seq<bool>, seq<bool>))
    ensures c == Codes(row, other, FixedOrder)
    ensures |c.0| == 7 && |c.1| == 7
    ensures (c.0[0], c.1[0]) == TimestampBits(row, other)
    ensures (c.0[1], c.1[1]) == ShardsBits(row, other)
  {
    c := Codes(row, other, FixedOrder);
    CodesStructure(row, other, FixedOrder);
    AllRecognised(FixedOrder);
  }

  /**
   * `endianReputation` over the rows its query returns: the fixed-order
   * `endian` folded over the rows, from `newReputationRow("self", "identity")`.
   */
  method EndianReputation(rows: seq<Record>, failure: DbFailure) returns (best: Record, ok: bool)
    ensures ok <==> failure == NoFailure
    ensures failure == QueryFailed || failure == ScanFailed ==> best == Seed
    ensures failure == NoFailure || failure == RowsFailed ==> best == BestOf(Seed, rows, FixedWinner)
    ensures best == Seed || best in rows
  {
    best := Seed;
    if failure == QueryFailed || failure == ScanFailed {
      return best, false;
    }
    var order := [Timestamp, ShardsModified, FalseClaims, AuditSuccess, Uptime, Latency, AmountOfDataStored];
    var i := 0;
    while i < |rows|
      invariant 0 <= i <= |rows|
      invariant BestOf(best, rows[i..], FixedWinner) == BestOf(Seed, rows, FixedWinner)
      invariant best == Seed || best in rows[..i]
    {
      best := Endian(best, rows[i], order);
      i := i + 1;
    }
    ok := failure != RowsFailed;
  }
}
