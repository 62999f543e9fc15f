/**
 * storage/sqlite3/nodereputation.go: the SQL text builders. The storage
 * package's column constants are nodeName, lastseen and the seven counters;
 * `Source` and `Timestamp` are values of the shared `Column` type that none
 * of its switches names.
 */
module SqlGen {
  import opened Records
  import opened Wrappers
  import opened Text
  import Strconv

  /** An unsigned 64-bit value, the type of `GenWhereStatement`'s limit. */
  type U64 = n: nat | n < 0x1_0000_0000_0000_0000

  /** `updateProtoTodo`: one column to set and the SQL text of its new value. */
  datatype Update = Update(col: Column, value: string)

  const UpdatePrefix: string := "\nUPDATE node_reputation\nSET last_seen = STRFTIME('%Y-%m-%d %H:%M:%f', 'NOW')"
  const NoUpdates: string := "SELECT 'No updates found in parameter list';"

  /** The table column of each counter, as `createTable` declares it. */
  function TableColumn(c: Column): (name: string)
    requires IsCounter(c)
  {
    match c
    case Uptime => "uptime"
    case AuditSuccess => "audit_success"
    case AuditFail => "audit_fail"
    case Latency => "latency"
    case AmountOfDataStored => "amount_of_data_stored"
    case FalseClaims => "false_claims"
    case ShardsModified => "shards_modified"
  }

  /** Distinct counters are stored in distinct table columns. */
  lemma TableColumnInjective(a: Column, b: Column)
    requires IsCounter(a) && IsCounter(b) && a != b
    ensures TableColumn(a) != TableColumn(b)
  {
  }

  /**
   * The text one update adds to the SET list: `, <table column> = <value>`
   * for a counter and nothing for any other column.
   */
  function UpdateClause(u: Update): string {
    if IsCounter(u.col) then ", " + TableColumn(u.col) + " = " + u.value else ""
  }

  /** The SET-list text of `updates`, in input order. */
  function UpdateClauses(updates: seq<Update>): string {
    Concat(updates, UpdateClause)
  }

  /** The statement `GenUpdateStatement` returns. */
  function UpdateStatement(updates: seq<Update>, node: string): string {
    if |updates| == 0 then NoUpdates
    else UpdatePrefix + UpdateClauses(updates) + "WHERE node_name = '" + node + "';"
  }

  /**
   * An empty list gives the fixed SELECT; otherwise the statement starts with
   * the prefix that sets `last_seen` and ends with the node's WHERE clause.
   */
  lemma UpdateStatementShape(updates: seq<Update>, node: string)
    ensures |updates| == 0 ==> UpdateStatement(updates, node) == NoUpdates
    ensures |updates| > 0 ==>
      UpdatePrefix <= UpdateStatement(updates, node) &&
      EndsWith(UpdateStatement(updates, node), "WHERE node_name = '" + node + "';")
  {
    if |updates| > 0 {
      var suffix := "WHERE node_name = '" + node + "';";
      var body := UpdatePrefix + UpdateClauses(updates);
      assert UpdateStatement(updates, node) == body + suffix;
      EndsWithAppend(body, suffix);
      assert (body + suffix)[..|UpdatePrefix|] == UpdatePrefix;
    }
  }

  /** The SET list of a concatenation of update lists is the concatenation of their SET lists. */
  lemma UpdateClausesAppend(a: seq<Update>, b: seq<Update>)
    ensures UpdateClauses(a + b) == UpdateClauses(a) + UpdateClauses(b)
  {
    ConcatAppend(a, b, UpdateClause);
  }

  /** An update of a column that is not a counter can be removed without changing the statement. */
  lemma NonCounterUpdateIgnored(a: seq<Update>, u: Update, b: seq<Update>, node: string)
    requires !IsCounter(u.col)
    requires |a + b| > 0
    ensures UpdateStatement(a + [u] + b, node) == UpdateStatement(a + b, node)
  {
    ConcatSkip(a, u, b, UpdateClause);
  }

  /**
   * With one counter update the statement is the prefix, that column's
   * assignment and the WHERE clause, with no space before `WHERE`.
   */
  lemma SingleCounterUpdate(c: Column, value: string, node: string)
    requires IsCounter(c)
    ensures UpdateStatement([Update(c, value)], node) ==
      UpdatePrefix + (", " + TableColumn(c) + " = " + value) + ("WHERE node_name = '" + node + "';")
  {
    ConcatSingle(Update(c, value), UpdateClause);
  }

  /** `GenUpdateStatement`: appends each update's clause to the prefix, then the node's WHERE clause. */
  method GenUpdateStatement(updates: seq<Update>, node: string) returns (acc: string)
    ensures acc == UpdateStatement(updates, node)
  {
    acc := UpdatePrefix;
    if |updates| > 0 {
      for i := 0 to |updates|
        invariant acc == UpdatePrefix + UpdateClauses(updates[..i])
      {
        assert updates[..i + 1][..i] == updates[..i];
        var update := updates[i];
        if IsCounter(update.col) {
          acc := acc + ", " + TableColumn(update.col) + " = " + update.value;
        }
      }
      assert updates[..|updates|] == updates;
      acc := acc + "WHERE node_name = '" + node + "';";
    } else {
      acc := NoUpdates;
    }
  }

  /** `WhereOpt`: a string type whose six constants are the SQL comparison operators. */
  type WhereOpt = string

  const Equal: WhereOpt := "="
  const Greater: WhereOpt := ">"
  const GreaterEqual: WhereOpt := ">="
  const Less: WhereOpt := "<"
  const LessEqual: WhereOpt := "<="
  const NotEqual: WhereOpt := "!="

  predicate IsOperator(opt: WhereOpt) {
    opt == Equal || opt == Greater || opt == GreaterEqual || opt == Less || opt == LessEqual || opt == NotEqual
  }

  /** `WhereOpt.toString`: each constant is its own text; any other value gives the empty string. */
  function ToString(opt: WhereOpt): (r: string)
    ensures IsOperator(opt) ==> r == opt
    ensures !IsOperator(opt) ==> r == ""
    ensures IsOperator(r) || r == ""
  {
    if opt == Equal then "="
    else if opt == Greater then ">"
    else if opt == GreaterEqual then ">="
    else if opt == Less then "<"
    else if opt == LessEqual then "<="
    else if opt == NotEqual then "!="
    else ""
  }

  /** Converting twice changes nothing more. */
  lemma ToStringIdempotent(opt: WhereOpt)
    ensures ToString(ToString(opt)) == ToString(opt)
  {
  }

  /** `whereProtoTodo`: one filter on a column. */
  datatype WhereTerm = WhereTerm(col: Column, opt: WhereOpt, value: string)

  /**
   * The column name a filter on `c` compares, or nothing for a column the
   * switch does not name: lastseen filters compare `timestamp`, and the
   * audit-success filter names `audit_succes`.
   */
  function FilterColumn(c: Column): Option<string> {
    match c
    case NodeName => Some("node_name")
    case LastSeen => Some("timestamp")
    case Uptime => Some("uptime")
    case AuditSuccess => Some("audit_succes")
    case AuditFail => Some("audit_fail")
    case Latency => Some("latency")
    case AmountOfDataStored => Some("amount_of_data_stored")
    case FalseClaims => Some("false_claims")
    case ShardsModified => Some("shards_modified")
    case _ => None
  }

  /**
   * The value side of a filter on `c`: a quoted string for nodeName, an
   * STRFTIME of the value for lastseen, the bare value otherwise.
   */
  function FilterValue(c: Column, value: string): string {
    match c
    case NodeName => " '" + value + "'"
    case LastSeen => " STRFTIME('%Y-%m-%d %H:%M:%f'," + value + ")"
    case _ => " " + value
  }

  /** The text one filter adds to the WHERE clause, or nothing for a column the switch does not name. */
  function WhereFragment(t: WhereTerm): Option<string> {
    match FilterColumn(t.col)
    case None => None
    case Some(name) => Some(" " + name + ToString(t.opt) + FilterValue(t.col, t.value))
  }

  /** The text of a filter that has one, and the empty string otherwise. */
  function FragmentText(t: WhereTerm): string {
    match WhereFragment(t)
    case None => ""
    case Some(f) => f
  }

  /** Exactly the filters on source and timestamp have no text. */
  lemma WhereFragmentDefined(t: WhereTerm)
    ensures WhereFragment(t).None? <==> t.col == Source || t.col == Timestamp
  {
  }

  /**
   * A counter filter other than audit success compares the counter's table
   * column; the audit-success filter names a column the table does not have.
   */
  lemma CounterFilterColumn(c: Column)
    requires IsCounter(c)
    ensures c != AuditSuccess ==> FilterColumn(c) == Some(TableColumn(c))
    ensures c == AuditSuccess ==>
      FilterColumn(c) == Some("audit_succes") &&
      forall d :: IsCounter(d) ==> TableColumn(d) != "audit_succes"
  {
  }

  /**
   * The texts of a nodeName filter, a lastseen filter and a counter filter,
   * written out.
   */
  lemma FilterTexts(op: WhereOpt, value: string, c: Column)
    requires IsCounter(c) && c != AuditSuccess
    ensures WhereFragment(WhereTerm(NodeName, op, value)) ==
      Some(" " + "node_name" + ToString(op) + (" '" + value + "'"))
    ensures WhereFragment(WhereTerm(LastSeen, op, value)) ==
      Some(" " + "timestamp" + ToString(op) + (" STRFTIME('%Y-%m-%d %H:%M:%f'," + value + ")"))
    ensures WhereFragment(WhereTerm(c, op, value)) ==
      Some(" " + TableColumn(c) + ToString(op) + (" " + value))
  {
  }

  /**
   * The WHERE clause `GenWhereStatement` accumulates: it starts as ` WHERE`,
   * each filter appends its text with no AND between them, and a filter on a
   * column the switch does not name resets it to the empty string.
   */
  function WhereClause(opts: seq<WhereTerm>): string {
    Accumulate(" WHERE", opts, WhereFragment)
  }

  /** Without a filter on an unrecognised column the clause is ` WHERE` followed by every filter's text in order. */
  lemma WhereClauseAllRecognised(opts: seq<WhereTerm>)
    requires forall i :: 0 <= i < |opts| ==> WhereFragment(opts[i]).Some?
    ensures WhereClause(opts) == " WHERE" + Concat(opts, FragmentText)
  {
    AccumulateAllPresent(" WHERE", opts, WhereFragment, FragmentText);
  }

  /**
   * After the last filter on an unrecognised column only the texts of the
   * filters that follow it remain, without the ` WHERE` keyword.
   */
  lemma WhereClauseAfterReset(opts: seq<WhereTerm>, k: nat)
    requires k < |opts| && WhereFragment(opts[k]).None?
    requires forall i :: k < i < |opts| ==> WhereFragment(opts[i]).Some?
    ensures WhereClause(opts) == Concat(opts[k + 1..], FragmentText)
  {
    AccumulateAfterReset(" WHERE", opts, WhereFragment, FragmentText, k);
  }

  /** A single recognised filter gives ` WHERE` and its text; an unrecognised one gives the empty clause. */
  lemma WhereClauseSingle(t: WhereTerm)
    ensures WhereFragment(t).Some? ==> WhereClause([t]) == " WHERE" + WhereFragment(t).value
    ensures WhereFragment(t).None? ==> WhereClause([t]) == ""
  {
    assert [t][..0] == [];
    if WhereFragment(t).Some? {
      AccumulateAllPresent(" WHERE", [t], WhereFragment, FragmentText);
      ConcatSingle(t, FragmentText);
    }
  }

  /** The SELECT list `GenWhereStatement` starts from. */
  const SelectText: string := "SELECT\n\tnode_name,\n\ttimestamp,\n\tuptime,\n\taudit_success,\n\taudit_fail,\n\tlatency,\n\tamount_of_data_stored,\n\tfalse_claims,\n\tshards_modified\nFROM node_reputation"

  /** The statement `GenWhereStatement` returns. */
  function WhereStatement(limit: U64, opts: seq<WhereTerm>): string {
    SelectText + WhereClause(opts) + " LIMIT " + Strconv.NatToDecimal(limit)
  }

  /** The digits after ` LIMIT ` are the decimal form of the limit and read back as it. */
  lemma WhereStatementLimit(limit: U64, opts: seq<WhereTerm>)
    ensures var s := WhereStatement(limit, opts); var d := Strconv.NatToDecimal(limit);
      SelectText <= s && EndsWith(s, " LIMIT " + d) &&
      Strconv.AllDigits(d) && Strconv.DigitsValue(d) == limit
  {
    var d := Strconv.NatToDecimal(limit);
    var body := SelectText + WhereClause(opts);
    assert WhereStatement(limit, opts) == body + (" LIMIT " + d);
    EndsWithAppend(body, " LIMIT " + d);
    assert (body + (" LIMIT " + d))[..|SelectText|] == SelectText;
    Strconv.DigitsValueOfDecimal(limit);
  }

  /** With no filters the statement is the SELECT list, ` WHERE` and the limit. */
  lemma WhereStatementNoFilters(limit: U64)
    ensures WhereStatement(limit, []) == SelectText + " WHERE LIMIT " + Strconv.NatToDecimal(limit)
  {
  }

  /** `GenWhereStatement`: accumulates the WHERE clause filter by filter, then adds the SELECT list and the limit. */
  method GenWhereStatement(limit: U64, opts: seq<WhereTerm>) returns (s: string)
    ensures s == WhereStatement(limit, opts)
  {
    var where := " WHERE";
    for i := 0 to |opts|
      invariant where == WhereClause(opts[..i])
    {
      assert opts[..i + 1][..i] == opts[..i];
      var opt := opts[i];
      var operand := ToString(opt.opt);
      match FilterColumn(opt.col)
      case None => where := "";
      case Some(name) => where := where + " " + name + operand + FilterValue(opt.col, opt.value);
    }
    assert opts[..|opts|] == opts;
    s := SelectText + where + " LIMIT " + Strconv.NatToDecimal(limit);
  }
}
