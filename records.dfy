/**
 * The node reputation record and its algebra of counter updates. The record
 * is the ten-field `NodeReputationRecord` of reputation/reputation.go, with
 * a `source` field. pkg/nodereputation defines no record of its own: it
 * builds and reads ten-value records with a `source`, so it is taken to
 * use the same record. Both packages define the same `performOp` and the
 * same `morphism`.
 */
module Records {
  import opened Int64

  /** A node reputation record: source, node name, timestamp and seven counters. */
  datatype Record = Record(
    source: string,
    nodeName: string,
    timestamp: string,
    uptime: I64,
    auditSuccess: I64,
    auditFail: I64,
    latency: I64,
    amountOfDataStored: I64,
    falseClaims: I64,
    shardsModified: I64)

  /**
   * The column constants of the system. `Source` and `Timestamp` are the
   * `sourceColumn` and `timestampColumn` the reputation package switches on;
   * `LastSeen` is the storage layer's `lastSeenColumn`.
   */
  datatype Column =
    | Source | NodeName | Timestamp | LastSeen
    | Uptime | AuditSuccess | AuditFail | Latency
    | AmountOfDataStored | FalseClaims | ShardsModified

  /** The seven integer counters of a record. */
  predicate IsCounter(c: Column) {
    c.Uptime? || c.AuditSuccess? || c.AuditFail? || c.Latency? ||
    c.AmountOfDataStored? || c.FalseClaims? || c.ShardsModified?
  }

  /** The value of counter `c` in `r`. */
  function Counter(r: Record, c: Column): I64
    requires IsCounter(c)
  {
    match c
    case Uptime => r.uptime
    case AuditSuccess => r.auditSuccess
    case AuditFail => r.auditFail
    case Latency => r.latency
    case AmountOfDataStored => r.amountOfDataStored
    case FalseClaims => r.falseClaims
    case ShardsModified => r.shardsModified
  }

  /**
   * The mutation operations. `mutOp` is a string type in the source, so a
   * value that is none of the three constants can occur; `Other` stands for it.
   */
  datatype MutOp = Increment | Decrement | OverWrite | Other(name: string)

  /** `performOp`: apply `op` to `value` with `scalar`, in 64-bit arithmetic. */
  function PerformOp(op: MutOp, value: I64, scalar: I64): (r: I64)
    ensures op.Increment? ==> r == value + scalar || r == value + scalar - MODULUS || r == value + scalar + MODULUS
    ensures op.Increment? && MIN <= value + scalar <= MAX ==> r == value + scalar
    ensures op.Decrement? ==> r == value - scalar || r == value - scalar - MODULUS || r == value - scalar + MODULUS
    ensures op.Decrement? && MIN <= value - scalar <= MAX ==> r == value - scalar
    ensures op.OverWrite? ==> r == scalar
    ensures op.Other? ==> r == value
  {
    match op
    case Increment => Wrap(value + scalar)
    case Decrement => Wrap(value - scalar)
    case OverWrite => scalar
    case Other(_) => value
  }

  /**
   * `morphism`: a copy of `row` with counter `col` updated by `op`; a column
   * that is not a counter leaves the record as it is.
   */
  function Morphism(row: Record, col: Column, op: MutOp, scalar: I64): (r: Record)
    ensures IsCounter(col) ==> Counter(r, col) == PerformOp(op, Counter(row, col), scalar)
    ensures forall c :: IsCounter(c) && c != col ==> Counter(r, c) == Counter(row, c)
    ensures r.source == row.source && r.nodeName == row.nodeName && r.timestamp == row.timestamp
    ensures !IsCounter(col) ==> r == row
  {
    match col
    case Uptime => row.(uptime := PerformOp(op, row.uptime, scalar))
    case AuditSuccess => row.(auditSuccess := PerformOp(op, row.auditSuccess, scalar))
    case AuditFail => row.(auditFail := PerformOp(op, row.auditFail, scalar))
    case Latency => row.(latency := PerformOp(op, row.latency, scalar))
    case AmountOfDataStored => row.(amountOfDataStored := PerformOp(op, row.amountOfDataStored, scalar))
    case FalseClaims => row.(falseClaims := PerformOp(op, row.falseClaims, scalar))
    case ShardsModified => row.(shardsModified := PerformOp(op, row.shardsModified, scalar))
    case _ => row
  }

  /** Two records are equal when their three text fields and seven counters are. */
  lemma RecordExtensionality(a: Record, b: Record)
    requires a.source == b.source && a.nodeName == b.nodeName && a.timestamp == b.timestamp
    requires forall c :: IsCounter(c) ==> Counter(a, c) == Counter(b, c)
    ensures a == b
  {
    assert Counter(a, Uptime) == Counter(b, Uptime);
    assert Counter(a, AuditSuccess) == Counter(b, AuditSuccess);
    assert Counter(a, AuditFail) == Counter(b, AuditFail);
    assert Counter(a, Latency) == Counter(b, Latency);
    assert Counter(a, AmountOfDataStored) == Counter(b, AmountOfDataStored);
    assert Counter(a, FalseClaims) == Counter(b, FalseClaims);
    assert Counter(a, ShardsModified) == Counter(b, ShardsModified);
  }

  /** Overwriting a counter with its own value changes nothing. */
  lemma OverWriteSameValue(row: Record, col: Column)
    requires IsCounter(col)
    ensures Morphism(row, col, OverWrite, Counter(row, col)) == row
  {
    var r := Morphism(row, col, OverWrite, Counter(row, col));
    RecordExtensionality(r, row);
  }

  /** Incrementing and then decrementing by the same scalar restores the record. */
  lemma IncrementThenDecrement(row: Record, col: Column, scalar: I64)
    ensures Morphism(Morphism(row, col, Increment, scalar), col, Decrement, scalar) == row
  {
    if IsCounter(col) {
      var up := Morphism(row, col, Increment, scalar);
      var back := Morphism(up, col, Decrement, scalar);
      RecordExtensionality(back, row);
    }
  }

  /** `NewReputationRow` / `newReputationRow`: a named record with no history. */
  function NewReputationRow(source: string, name: string): (r: Record)
    ensures r.source == source && r.nodeName == name && r.timestamp == ""
    ensures forall c :: IsCounter(c) ==> Counter(r, c) == 0
  {
    Record(source, name, "", 0, 0, 0, 0, 0, 0, 0)
  }

  /** The record every best-record search starts from. */
  const Seed: Record := NewReputationRow("self", "identity")

  /**
   * The best-record loop of `naiveReputation` and `endianReputation`: starting
   * from `best`, each row in turn is compared with the best so far by `pick`
   * (called as `pick(bestSoFar, row)`), and the pick becomes the best so far.
   */
  function BestOf(best: Record, rows: seq<Record>, pick: (Record, Record) -> Record): Record
    decreases |rows|
  {
    if |rows| == 0 then best else BestOf(pick(best, rows[0]), rows[1..], pick)
  }

  /** When every comparison returns one of its two records, so does the whole search. */
  lemma {:induction false} BestOfIsCandidate(best: Record, rows: seq<Record>, pick: (Record, Record) -> Record)
    requires forall a, b :: pick(a, b) == a || pick(a, b) == b
    ensures BestOf(best, rows, pick) == best || BestOf(best, rows, pick) in rows
    decreases |rows|
  {
    if |rows| > 0 {
      BestOfIsCandidate(pick(best, rows[0]), rows[1..], pick);
      assert rows == [rows[0]] + rows[1..];
    }
  }

  /**
   * Where reading rows from the database failed: at `db.Query`, at
   * `rows.Scan` inside `iterOnDBRows`, or at the final `rows.Err()`.
   */
  datatype DbFailure = NoFailure | QueryFailed | ScanFailed | RowsFailed
}
