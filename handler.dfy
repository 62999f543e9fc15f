/**
 * pkg/nodereputation/handler.go: the mapping of the protocol's enumerations
 * to the storage types, the two queries the handler builds, and the
 * decision `insertNodeUpdate` makes from the selected record. The database
 * is a log of inserted records; what the lookup query returns is an input.
 */
module Handler {
  import opened Int64
  import opened Records
  import opened Wrappers
  import opened Strconv
  import opened SqlGen
  import NodeReputation
  import Text

  /**
   * The protocol's comparison operands. An enumeration value outside the six
   * constants can reach the handler; `UnknownOperand` stands for it.
   */
  datatype Operand =
    | EqualTo | GreaterThan | GreaterThanEqualTo | LessThan | LessThanEqualTo | NotEqualTo
    | UnknownOperand(code: int)

  /** `toWhereOpt`: each operand to its operator, anything else to `!=`. */
  function ToWhereOpt(o: Operand): (r: WhereOpt)
    ensures IsOperator(r)
    ensures o.UnknownOperand? ==> r == NotEqual
  {
    match o
    case EqualTo => Equal
    case GreaterThan => Greater
    case GreaterThanEqualTo => GreaterEqual
    case LessThan => Less
    case LessThanEqualTo => LessEqual
    case NotEqualTo => NotEqual
    case UnknownOperand(_) => NotEqual
  }

  /** The operand of each operator, the inverse of `ToWhereOpt` on the six constants. */
  function OperandOf(opt: WhereOpt): (o: Operand)
    requires IsOperator(opt)
    ensures !o.UnknownOperand?
  {
    if opt == Equal then EqualTo
    else if opt == Greater then GreaterThan
    else if opt == GreaterEqual then GreaterThanEqualTo
    else if opt == Less then LessThan
    else if opt == LessEqual then LessThanEqualTo
    else NotEqualTo
  }

  /** `ToWhereOpt` and `OperandOf` are inverse to each other on the known operands and the operators. */
  lemma OperandRoundTrip(o: Operand, opt: WhereOpt)
    ensures !o.UnknownOperand? ==> OperandOf(ToWhereOpt(o)) == o
    ensures IsOperator(opt) ==> ToWhereOpt(OperandOf(opt)) == opt
  {
  }

  /** The operator a filter is built with is written out verbatim in the WHERE clause. */
  lemma OperandText(o: Operand)
    ensures ToString(ToWhereOpt(o)) == ToWhereOpt(o)
  {
  }

  /** The protocol's column names; `UnknownColumn` stands for a value outside them. */
  datatype ProtoColumn =
    | SourceName | NodeNameName | TimestampName | UptimeName | AuditSuccessName | AuditFailName
    | LatencyName | AmountOfDataStoredName | FalseClaimsName | ShardsModifiedName
    | UnknownColumn(code: int)

  /** `toColumn`: each protocol column to its column constant, anything else to the source column. */
  function ToColumn(p: ProtoColumn): (c: Column)
    ensures c != LastSeen
    ensures p.UnknownColumn? ==> c == Source
  {
    match p
    case SourceName => Source
    case NodeNameName => NodeName
    case TimestampName => Timestamp
    case UptimeName => Uptime
    case AuditSuccessName => AuditSuccess
    case AuditFailName => AuditFail
    case LatencyName => Latency
    case AmountOfDataStoredName => AmountOfDataStored
    case FalseClaimsName => FalseClaims
    case ShardsModifiedName => ShardsModified
    case UnknownColumn(_) => Source
  }

  /** The protocol column of each column constant; lastseen has none. */
  function ProtoColumnOf(c: Column): (p: ProtoColumn)
    requires c != LastSeen
    ensures !p.UnknownColumn?
  {
    match c
    case Source => SourceName
    case NodeName => NodeNameName
    case Timestamp => TimestampName
    case Uptime => UptimeName
    case AuditSuccess => AuditSuccessName
    case AuditFail => AuditFailName
    case Latency => LatencyName
    case AmountOfDataStored => AmountOfDataStoredName
    case FalseClaims => FalseClaimsName
    case ShardsModified => ShardsModifiedName
  }

  /** `ToColumn` and `ProtoColumnOf` are inverse to each other on the known names and every column but lastseen. */
  lemma ColumnRoundTrip(p: ProtoColumn, c: Column)
    ensures !p.UnknownColumn? ==> ProtoColumnOf(ToColumn(p)) == p
    ensures c != LastSeen ==> ToColumn(ProtoColumnOf(c)) == c
  {
  }

  /** The query `insertNodeUpdate` and `byNodeName` select the node's records with: one equality filter, limit 10. */
  function LookupQuery(name: string): (q: string)
    ensures q == FilterQuery(NodeNameName, EqualTo, name)
  {
    WhereStatement(10, [WhereTerm(NodeName, Equal, name)])
  }

  /** The lookup query written out. */
  lemma LookupQueryText(name: string)
    ensures LookupQuery(name) ==
      SelectText + (" WHERE" + (" " + "node_name" + "=" + (" '" + name + "'"))) + " LIMIT " + "10"
  {
    WhereClauseSingle(WhereTerm(NodeName, Equal, name));
    FilterTexts(Equal, name, Uptime);
    assert NatToDecimal(10) == "10" by {
      assert NatToDecimal(1) == "1";
    }
  }

  /**
   * `byNodeName`, given the records its query returns and the stage at which
   * reading them failed, if any: the endian winner among them, or the zero
   * record when the lookup reports an error.
   */
  method ByNodeName(name: string, selected: seq<Record>, failure: DbFailure)
    returns (query: string, row: Record, ok: bool)
    ensures query == LookupQuery(name)
    ensures ok <==> failure == NoFailure
    ensures ok ==> row == BestOf(Seed, selected, NodeReputation.FixedWinner)
    ensures !ok ==> row == NewReputationRow("", "")
  {
    query := GenWhereStatement(10, [WhereTerm(NodeName, Equal, name)]);
    row, ok := NodeReputation.EndianReputation(selected, failure);
    if !ok {
      row := NewReputationRow("", "");
    }
  }

  /** The query `selectNodeWhere` builds from a protocol constraint: one filter, limit 10. */
  function FilterQuery(col: ProtoColumn, o: Operand, value: string): (q: string)
    ensures SelectText <= q && Text.EndsWith(q, " LIMIT " + NatToDecimal(10))
  {
    WhereStatementLimit(10, [WhereTerm(ToColumn(col), ToWhereOpt(o), value)]);
    WhereStatement(10, [WhereTerm(ToColumn(col), ToWhereOpt(o), value)])
  }

  /**
   * A constraint on the source or timestamp column, or on an unknown column,
   * loses its WHERE clause entirely: the query selects up to 10 of all records.
   */
  lemma FilterQueryWithoutWhere(col: ProtoColumn, o: Operand, value: string)
    requires col.SourceName? || col.TimestampName? || col.UnknownColumn?
    ensures FilterQuery(col, o, value) == SelectText + "" + " LIMIT " + NatToDecimal(10)
  {
    WhereClauseSingle(WhereTerm(ToColumn(col), ToWhereOpt(o), value));
  }

  datatype ReplyType = UpdateSuccess | UpdateFailed

  /** The protocol's `NodeUpdate` request. */
  datatype NodeUpdate = NodeUpdate(source: string, nodeName: string, columnName: ProtoColumn, columnValue: string)

  /** The record the endian lookup selects: the seed if the query or the scan failed, otherwise the fold. */
  function SelectedRow(rows: seq<Record>, failure: DbFailure): (r: Record)
    ensures failure == QueryFailed || failure == ScanFailed ==> r == Seed
    ensures r == Seed || r in rows
  {
    BestOfIsCandidate(Seed, rows, NodeReputation.FixedWinner);
    if failure == QueryFailed || failure == ScanFailed then Seed
    else BestOf(Seed, rows, NodeReputation.FixedWinner)
  }

  /** The selected record, renamed to the request's node (with its source) when the names differ. */
  function Renamed(req: NodeUpdate, row: Record): (r: Record)
    ensures r.nodeName == req.nodeName
    ensures r.source == if row.nodeName != req.nodeName then req.source else row.source
    ensures r.timestamp == row.timestamp
    ensures forall c :: IsCounter(c) ==> Counter(r, c) == Counter(row, c)
  {
    if row.nodeName != req.nodeName then row.(source := req.source, nodeName := req.nodeName) else row
  }

  /** What `insertNodeUpdate` answers and which record, if any, it inserts. */
  datatype Outcome = Outcome(status: ReplyType, inserted: Option<Record>)

  /**
   * The decision of `insertNodeUpdate` once `row` is selected. A counter
   * column always inserts one record: the renamed row with that counter
   * overwritten when the value parses as a base-10 int64, the renamed row
   * unchanged when it does not. Any other column fails and inserts nothing.
   */
  function Decide(req: NodeUpdate, row: Record): (o: Outcome)
    ensures o.status == UpdateSuccess <==>
      IsCounter(ToColumn(req.columnName)) && ParseInt(req.columnValue).Some?
    ensures o.inserted.Some? <==> IsCounter(ToColumn(req.columnName))
    ensures o.status == UpdateSuccess ==>
      o.inserted == Some(Morphism(Renamed(req, row), ToColumn(req.columnName), OverWrite, ParseInt(req.columnValue).value))
    ensures o.inserted.Some? && o.status == UpdateFailed ==> o.inserted == Some(Renamed(req, row))
  {
    var col := ToColumn(req.columnName);
    var newRecord := Renamed(req, row);
    if !IsCounter(col) then Outcome(UpdateFailed, None)
    else
      match ParseInt(req.columnValue)
      case None => Outcome(UpdateFailed, Some(newRecord))
      case Some(val) => Outcome(UpdateSuccess, Some(Morphism(newRecord, col, OverWrite, val)))
  }

  /**
   * On success the inserted record carries the parsed value in the updated
   * counter, the selected row's values in every other counter, and the
   * request's node name.
   */
  lemma SuccessfulUpdateRecord(req: NodeUpdate, row: Record)
    requires Decide(req, row).status == UpdateSuccess
    ensures var r := Decide(req, row).inserted.value; var col := ToColumn(req.columnName);
      Counter(r, col) == ParseInt(req.columnValue).value &&
      (forall c :: IsCounter(c) && c != col ==> Counter(r, c) == Counter(row, c)) &&
      r.nodeName == req.nodeName && r.timestamp == row.timestamp
  {
    var col := ToColumn(req.columnName);
    var renamed := Renamed(req, row);
    var r := Morphism(renamed, col, OverWrite, ParseInt(req.columnValue).value);
    assert forall c :: IsCounter(c) && c != col ==> Counter(r, c) == Counter(renamed, c) == Counter(row, c);
  }

  /** The status does not depend on the selected record, so a failed lookup does not decide it. */
  lemma StatusIgnoresLookup(req: NodeUpdate, rows: seq<Record>, failure: DbFailure, other: DbFailure)
    ensures Decide(req, SelectedRow(rows, failure)).status == Decide(req, SelectedRow(rows, other)).status
  {
  }

  /** Writing a counter as the decimal text of an int64 stores exactly that value. */
  lemma FormattedValueStored(req: NodeUpdate, row: Record, v: I64)
    requires IsCounter(ToColumn(req.columnName)) && req.columnValue == FormatInt(v)
    ensures Decide(req, row).status == UpdateSuccess
    ensures Counter(Decide(req, row).inserted.value, ToColumn(req.columnName)) == v
  {
    ParseFormatRoundTrip(v);
  }

  /** The database, seen as the log of the records handed to `insertRows`, in order. */
  class ReputationDb {
    ghost var inserted: seq<Record>

    constructor ()
      ensures inserted == []
    {
      inserted := [];
    }

    /** `insertRows`: logs the rows it is handed, in order. */
    method InsertRows(rows: seq<Record>)
      modifies this
      ensures inserted == old(inserted) + rows
    {
      inserted := inserted + rows;
    }

    /**
     * `insertNodeUpdate`, given the records the lookup query returns and the
     * stage at which reading them failed, if any.
     */
    method InsertNodeUpdate(req: NodeUpdate, selected: seq<Record>, failure: DbFailure)
      returns (res: ReplyType, query: string)
      modifies this
      ensures query == LookupQuery(req.nodeName)
      ensures var o := Decide(req, SelectedRow(selected, failure));
        res == o.status &&
        inserted == old(inserted) + (if o.inserted.Some? then [o.inserted.value] else [])
    {
      res := UpdateFailed;
      query := GenWhereStatement(10, [WhereTerm(NodeName, Equal, req.nodeName)]);
      var row, ok := NodeReputation.EndianReputation(selected, failure);
      if !ok {
        res := UpdateFailed;
      }
      if row.nodeName != req.nodeName {
        row := row.(source := req.source, nodeName := req.nodeName);
      }
      var newRecord := row;
      var col := ToColumn(req.columnName);
      if IsCounter(col) {
        var val := ParseInt(req.columnValue);
        if val.None? {
          res := UpdateFailed;
        } else {
          res := UpdateSuccess;
          newRecord := Morphism(newRecord, col, OverWrite, val.value);
        }
        InsertRows([newRecord]);
      } else {
        res := UpdateFailed;
      }
    }
  }
}
