/**
 * reputation/reputation.go: the first version of the reputation algebra, with
 * a fixed comparison order and float ratios that may be NaN or infinite.
 * The database reads are replaced by the rows they return and the stage at
 * which they failed, if they did.
 */
module Reputation {
  import opened Int64
  import opened Records
  import opened Lex
  import opened EndianBits
  import Ratio

  /**
   * `auditSuccessRatio`: `float64(success) / float64(success + fail)`, with
   * the sum taken in 64-bit arithmetic; 0/0 is NaN.
   */
  function AuditSuccessRatio(row: Record): (r: Ratio.Real)
    ensures Ratio.Valid(r)
    ensures r == Ratio.NaN <==> row.auditSuccess == 0 && Wrap(row.auditSuccess + row.auditFail) == 0
  {
    Ratio.Quotient(row.auditSuccess, Wrap(row.auditSuccess + row.auditFail))
  }

  /**
   * The two codes `endian` builds, one position per column in the order
   * timestamp, shardsModified, falseClaims, audit success ratio, uptime,
   * latency, amountOfDataStored.
   */
  function Codes(row: Record, other: Record): (c: (seq<bool>, seq<bool>))
    ensures |c.0| == 7 && |c.1| == 7
  {
    var t := TimestampBits(row, other);
    var s := ShardsBits(row, other);
    var f := LowerBits(row.falseClaims, other.falseClaims);
    var a := RatioBits(AuditSuccessRatio(row), AuditSuccessRatio(other));
    var u := HigherBits(row.uptime, other.uptime);
    var l := LowerBits(row.latency, other.latency);
    var d := HigherBits(row.amountOfDataStored, other.amountOfDataStored);
    ([t.0, s.0, f.0, a.0, u.0, l.0, d.0], [t.1, s.1, f.1, a.1, u.1, l.1, d.1])
  }

  /** Only at the shards position can both codes hold a one. */
  lemma CodesAtMostOneOne(row: Record, other: Record)
    ensures var c := Codes(row, other);
      forall k :: 0 <= k < 7 && k != 1 ==> !(c.0[k] && c.1[k])
  {
    AtMostOneOne(row, other, AuditSuccessRatio(row), AuditSuccessRatio(other));
  }

  /** The record `endian` returns: `row` when its code is the greater, otherwise `other`. */
  function Winner(row: Record, other: Record): Record {
    var c := Codes(row, other);
    if CodeGreater(c.0, c.1) then row else other
  }

  /**
   * `endian`: writes the two codes position by position (each switch of the
   * source is one of the `EndianBits` functions), then compares them.
   */
  method Endian(row: Record, other: Record) returns (res: Record)
    ensures res == Winner(row, other)
    ensures res == row || res == other
  {
    var rowCode: seq<bool> := [];
    var otherCode: seq<bool> := [];

    var t := TimestampBits(row, other);
    rowCode, otherCode := rowCode + [t.0], otherCode + [t.1];
    var sh := ShardsBits(row, other);
    rowCode, otherCode := rowCode + [sh.0], otherCode + [sh.1];
    var f := LowerBits(row.falseClaims, other.falseClaims);
    rowCode, otherCode := rowCode + [f.0], otherCode + [f.1];
    var a := RatioBits(AuditSuccessRatio(row), AuditSuccessRatio(other));
    rowCode, otherCode := rowCode + [a.0], otherCode + [a.1];
    var u := HigherBits(row.uptime, other.uptime);
    rowCode, otherCode := rowCode + [u.0], otherCode + [u.1];
    var l := LowerBits(row.latency, other.latency);
    rowCode, otherCode := rowCode + [l.0], otherCode + [l.1];
    var d := HigherBits(row.amountOfDataStored, other.amountOfDataStored);
    rowCode, otherCode := rowCode + [d.0], otherCode + [d.1];

    assert rowCode == [t.0, sh.0, f.0, a.0, u.0, l.0, d.0];
    assert otherCode == [t.1, sh.1, f.1, a.1, u.1, l.1, d.1];
    assert (rowCode, otherCode) == Codes(row, other);
    if CodeGreater(rowCode, otherCode) {
      res := row;
    } else {
      res := other;
    }
  }

  /** Of two records of the same node, the more recent one wins, whatever its counters. */
  lemma NewerRecordWins(row: Record, other: Record)
    requires row.nodeName == other.nodeName && StrLess(other.timestamp, row.timestamp)
    ensures Winner(row, other) == row && Winner(other, row) == row
  {
    StrLessAsymmetric(row.timestamp, other.timestamp);
  }

  /**
   * When the timestamp position ties (different nodes, or equal timestamps),
   * a record with modified shards loses to one without.
   */
  lemma ModifiedShardsLose(row: Record, other: Record)
    requires TimestampBits(row, other) == (false, false)
    requires (row.shardsModified > 0) != (other.shardsModified > 0)
    ensures Winner(row, other) == if row.shardsModified > 0 then other else row
  {
    var c := Codes(row, other);
    assert c.0[0] == c.1[0] && c.0[1] != c.1[1];
    assert CodeGreater(c.0, c.1) == CodeGreater(c.0[1..], c.1[1..]);
  }

  /** Equal codes are a tie, and a tie goes to `other`. */
  lemma TieGoesToOther(row: Record, other: Record)
    requires Codes(row, other).0 == Codes(row, other).1
    ensures Winner(row, other) == other
  {
    CodeGreaterIrreflexive(Codes(row, other).0);
  }

  /** The winner is decided by the first position at which the two codes differ. */
  lemma DecidedAtFirstDifference(row: Record, other: Record)
    ensures var c := Codes(row, other);
      Winner(row, other) ==
        if exists k :: 0 <= k < 7 && c.0[..k] == c.1[..k] && c.0[k] && !c.1[k] then row else other
  {
    CodeGreaterAtFirstDifference(Codes(row, other).0, Codes(row, other).1);
  }

  /** With no audits at all the ratio is NaN, and the audit position gives neither record a one. */
  lemma NoAuditsNoAuditOne(row: Record, other: Record)
    requires row.auditSuccess == 0 && row.auditFail == 0
    ensures !Codes(row, other).0[3] && !Codes(row, other).1[3]
  {
    Ratio.NaNIncomparable(AuditSuccessRatio(other));
  }

  /**
   * `greaterRep`: between two records of the same node with different
   * timestamps the later one; otherwise the one with the higher score.
   * `rowScoresHigher` stands for `row.naiveRep() > other.naiveRep()`.
   */
  function GreaterRep(row: Record, other: Record, rowScoresHigher: bool): (r: Record)
    ensures r == row || r == other
    ensures row.nodeName == other.nodeName && StrLess(row.timestamp, other.timestamp) ==> r == other
    ensures row.nodeName == other.nodeName && StrLess(other.timestamp, row.timestamp) ==> r == row
    ensures row.nodeName != other.nodeName || row.timestamp == other.timestamp ==>
      r == if rowScoresHigher then row else other
  {
    StrLessAsymmetric(row.timestamp, other.timestamp);
    StrLessIrreflexive(row.timestamp);
    if StrLess(row.timestamp, other.timestamp) && row.nodeName == other.nodeName then other
    else if StrLess(other.timestamp, row.timestamp) && row.nodeName == other.nodeName then row
    else if rowScoresHigher then row
    else other
  }

  /** The comparison `naiveReputation` folds, given the score comparison. */
  function GreaterRepBy(scoreGreater: (Record, Record) -> bool): (Record, Record) -> Record {
    (a, b) => GreaterRep(a, b, scoreGreater(a, b))
  }

  /**
   * `naiveReputation` over the rows its query returns. `scoreGreater(a, b)`
   * stands for `a.naiveRep() > b.naiveRep()`.
   */
  method NaiveReputation(rows: seq<Record>, failure: DbFailure, scoreGreater: (Record, Record) -> bool)
    returns (best: Record, ok: bool)
    ensures ok <==> failure == NoFailure
    ensures failure == QueryFailed || failure == ScanFailed ==> best == Seed
    ensures failure == NoFailure || failure == RowsFailed ==> best == BestOf(Seed, rows, GreaterRepBy(scoreGreater))
    ensures best == Seed || best in rows
  {
    best := Seed;
    if failure == QueryFailed || failure == ScanFailed {
      return best, false;
    }
    var i := 0;
    while i < |rows|
      invariant 0 <= i <= |rows|
      invariant BestOf(best, rows[i..], GreaterRepBy(scoreGreater)) == BestOf(Seed, rows, GreaterRepBy(scoreGreater))
      invariant best == Seed || best in rows[..i]
    {
      best := GreaterRep(best, rows[i], scoreGreater(best, rows[i]));
      i := i + 1;
    }
    ok := failure != RowsFailed;
  }

  /** `endianReputation` over the rows its query returns. */
  method EndianReputation(rows: seq<Record>, failure: DbFailure) returns (best: Record, ok: bool)
    ensures ok <==> failure == NoFailure
    ensures failure == QueryFailed || failure == ScanFailed ==> best == Seed
    ensures failure == NoFailure || failure == RowsFailed ==> best == BestOf(Seed, rows, Winner)
    ensures best == Seed || best in rows
  {
    best := Seed;
    if failure == QueryFailed || failure == ScanFailed {
      return best, false;
    }
    var i := 0;
    while i < |rows|
      invariant 0 <= i <= |rows|
      invariant BestOf(best, rows[i..], Winner) == BestOf(Seed, rows, Winner)
      invariant best == Seed || best in rows[..i]
    {
      best := Endian(best, rows[i]);
      i := i + 1;
    }
    ok := failure != RowsFailed;
  }

  /** `NodeReputationRecordMorphism`: `morphism` applied to every row, in order. */
  method RecordMorphism(rows: seq<Record>, col: Column, op: MutOp, scalar: I64) returns (res: seq<Record>)
    ensures |res| == |rows|
    ensures forall i :: 0 <= i < |rows| ==> res[i] == Morphism(rows[i], col, op, scalar)
  {
    res := [];
    for i := 0 to |rows|
      invariant |res| == i
      invariant forall j :: 0 <= j < i ==> res[j] == Morphism(rows[j], col, op, scalar)
    {
      res := res + [Morphism(rows[i], col, op, scalar)];
    }
  }
}
