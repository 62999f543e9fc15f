# Storj node reputation and repeat driver, in Dafny

This project models four parts of the Storj node-reputation prototype and proves properties of them.

- **Reputation record algebra** (reputation/reputation.go, pkg/nodereputation/noderepuation.go).
  - A node's record holds a source, a node name, a timestamp and seven int64 counters.
  - `performOp` and `morphism` increment, decrement or overwrite one counter.
  - `endian` compares two records. It writes one '0'/'1' character per column into two one-hot codes, in a priority order, and picks the record whose code is lexicographically greater.
  - `greaterRep` prefers the newer record of the same node.
  - `naiveReputation` and `endianReputation` fold these comparisons over the selected rows. The fold starts from the record `("self", "identity")`.
- **SQL text builders** (storage/sqlite3/nodereputation.go).
  - `GenUpdateStatement`, `WhereOpt.toString` and `GenWhereStatement` are modelled character for character, quirks included:
    - there is no space before `WHERE node_name`;
    - the filter column is misspelt `audit_succes`;
    - an empty filter list leaves a bare ` WHERE`;
    - a filter on a column outside the switch clears the text built so far.
- **Update handler** (pkg/nodereputation/handler.go).
  - The protocol enumerations map onto operators and columns.
  - `byNodeName` and `selectNodeWhere` build their queries.
  - `insertNodeUpdate` chooses a status and the record to insert.
  - The database is replaced by inputs: the rows a query returns and the stage at which reading them failed (`DbFailure`).
  - `insertRows` becomes a ghost log of inserted records on the class `ReputationDb`.
- **Repeat driver** (pkg/repeat/repeat.go over the `Repeater` interface of pkg/repeat/repeater.go).
  - It runs rounds over a list of jobs, keeping the jobs that ask to run again and collecting an error message for each failed call.
  - Its tail call is the outer loop of `RepeatDriver.Repeat`.
  - A job is a `Jobs.Job` object. Its counter is an int64 that wraps around as Go's 64-bit `int` does. Its `kind` is one of these:
    - the `inc` job of pkg/repeatjobs/repeat_test.go;
    - the `dec` job of pkg/repeatjobs/repeat_test.go;
    - a `Scripted` job, standing for any other `Repeater`, whose successive calls return given outcomes. This makes the error path reachable.
  - The driver is specified by a simulation on job states (`RoundMessages`, `Survivors`, `RunMessages`).
  - Termination follows from a measure: each job's remaining potential plus one, summed over the list.
  - The three tests of repeat_test.go are methods whose contracts are the tests' expected values.

Modules:
- Shared building blocks:
  - `Records` (record, columns, ops);
  - `Int64` (64-bit wrap-around);
  - `Strconv` (decimal formatting and `strconv.ParseInt(s, 10, 64)`);
  - `Lex` (Go string order and the order on one-hot codes);
  - `Ratio` (the audit ratio as an exact extended rational);
  - `EndianBits` (one code position);
  - `Text` (the two ways the SQL builders grow a string);
  - `Wrappers` (Option).
- One module per source file: `Reputation`, `NodeReputation`, `SqlGen`, `Handler`, `RepeatDriver`, `Jobs`, `RepeatJobs`.

Where the source does not compile as written, the evident intent is modelled:
- noderepuation.go calls `row.auditSuccessRatio()` and `bestRep.endian(row, order)` as methods, although they are defined as functions.
- handler.go calls `GenWhereStatement(10, col, op, value)`. This is modelled as one filter term with limit 10.
- pkg/nodereputation defines no record struct. Yet noderepuation.go:250 builds a ten-value record with a source, and handler.go:171 writes `row.source`. The only record struct nearby, storage/sqlite3/nodereputation.go:35-45, has nine fields and no source. The model takes reputation.go's ten-field record (reputation/reputation.go:37-47) for pkg/nodereputation too.

## Model

| member | source | states |
|---|---|---|
| Records.PerformOp | reputation/reputation.go:473-484 | increment adds and decrement subtracts the scalar (exactly, when no int64 overflow occurs, otherwise off by 2^64), overwrite gives the scalar, any other op leaves the value |
| Records.Morphism | reputation/reputation.go:500-519 | the named counter becomes `PerformOp` of its old value; every other counter, the source, the node name and the timestamp are unchanged; a non-counter column changes nothing |
| Records.OverWriteSameValue | reputation/reputation.go:500-519 | overwriting a counter with its own value gives back the same record |
| Records.IncrementThenDecrement | reputation/reputation.go:473-484 | incrementing then decrementing a counter by the same scalar restores the record, wrap-around included |
| Records.NewReputationRow | reputation/reputation.go:533-535 | the new record has the given source and name, an empty timestamp and every counter zero |
| Records.BestOfIsCandidate | reputation/reputation.go:450-452 | a fold with a choice that always returns one of its two arguments ends at the seed or at one of the rows |
| Reputation.AuditSuccessRatio | reputation/reputation.go:232-234 | success / (success + fail) with the int sum wrapped; it is NaN exactly when both the numerator and the wrapped sum are zero |
| Reputation.Codes | reputation/reputation.go:330-415 | both codes have exactly seven positions |
| Reputation.CodesAtMostOneOne | reputation/reputation.go:334-415 | at every position but the shards one, at most one of the two codes has a '1' |
| Reputation.Endian | reputation/reputation.go:330-431 | the method building the two codes returns `Winner`, which is always one of its two arguments |
| Reputation.NewerRecordWins | reputation/reputation.go:334-337 | between records of the same node, the one with the later timestamp wins, in either argument order |
| Reputation.ModifiedShardsLose | reputation/reputation.go:346-355 | when the timestamp position ties, a record with modified shards loses to one without |
| Reputation.TieGoesToOther | reputation/reputation.go:417-423 | equal codes make `other` the winner |
| Reputation.DecidedAtFirstDifference | reputation/reputation.go:419-423 | `row` wins iff, at the first position where the codes differ, row's code has the '1' |
| Reputation.NoAuditsNoAuditOne | reputation/reputation.go:369-379 | a record with no audits has a NaN ratio, so neither code gets a '1' at the audit position |
| Reputation.GreaterRep | reputation/reputation.go:263-285 | the result is one of the two records; for the same node the later timestamp wins; otherwise the score comparison decides and a tie goes to `other` |
| Reputation.NaiveReputation | reputation/reputation.go:288-315 | a failed query or scan returns the seed; otherwise the `greaterRep` fold over the rows; the result is the seed or a row; `ok` iff nothing failed |
| Reputation.EndianReputation | reputation/reputation.go:434-461 | the same for the `endian` fold |
| Reputation.RecordMorphism | reputation/reputation.go:522-530 | the result has the rows' length and its i-th record is `Morphism` of the i-th row |
| EndianBits.AtMostOneOne | reputation/reputation.go:334-415 | the timestamp, ratio, higher-is-better and lower-is-better positions never give both records a '1' |
| Lex.StrLessIsLexicographic | reputation/reputation.go:274-277 | Go's string `<` holds iff the first is a proper prefix of the second, or both agree up to a position where the first has the smaller character |
| Lex.StrLessIrreflexive | reputation/reputation.go:274-277 | no string is below itself |
| Lex.StrLessAsymmetric | reputation/reputation.go:274-277 | no two strings are each below the other |
| Lex.StrLessTotal | reputation/reputation.go:274-277 | of two different strings, one is below the other |
| Lex.StrLessTransitive | reputation/reputation.go:274-277 | the string order is transitive |
| Lex.Render | reputation/reputation.go:331-415 | a code is written as a string of the same length with '1' for true and '0' for false |
| Lex.CodeGreaterIsStringGreater | reputation/reputation.go:419 | the order on codes is exactly Go's `>` on their rendered strings |
| Lex.CodeGreaterAtFirstDifference | pkg/nodereputation/noderepuation.go:147 | for codes of equal length, `a > b` iff at their first difference `a` has the '1' |
| Lex.CodeGreaterIrreflexive | reputation/reputation.go:419-423 | no code is greater than itself |
| Ratio.Quotient | reputation/reputation.go:233 | n/d as an IEEE-style extended value: NaN iff 0/0, an infinity iff d is 0 and n is not, otherwise a fraction equal to n/d |
| Ratio.GreaterAsymmetric | reputation/reputation.go:369-379 | no two ratios are each greater than the other |
| Ratio.NaNIncomparable | reputation/reputation.go:369-379 | NaN is neither greater nor smaller than any value |
| NodeReputation.AuditSuccessRatio | pkg/nodereputation/noderepuation.go:30-38 | zero when the wrapped total is not positive, otherwise success / total |
| NodeReputation.AuditSuccessRatioBounds | pkg/nodereputation/noderepuation.go:30-38 | with non-negative counters whose sum fits, the ratio lies between 0 and 1 |
| NodeReputation.Codes | pkg/nodereputation/noderepuation.go:47-143 | both codes have one position per recognised column of the order |
| NodeReputation.CodesStructure | pkg/nodereputation/noderepuation.go:51-143 | position k of the codes is the pair of bits of the k-th recognised column |
| NodeReputation.CodesAtMostOneOne | pkg/nodereputation/noderepuation.go:51-142 | at every position except a shards one, at most one code has a '1' |
| NodeReputation.Endian | pkg/nodereputation/noderepuation.go:47-154 | the loop over the order returns `Winner`, one of its two arguments |
| NodeReputation.DecidedAtFirstDifference | pkg/nodereputation/noderepuation.go:145-153 | `row` wins iff at the first differing position of the codes row has the '1' |
| NodeReputation.UnrecognisedColumnsIgnored | pkg/nodereputation/noderepuation.go:51-52 | columns without a case contribute nothing: the codes equal those of the recognised columns alone |
| NodeReputation.NewerRecordWins | pkg/nodereputation/noderepuation.go:53-60 | with the fixed order, the later record of the same node wins in either argument order |
| NodeReputation.ModifiedShardsLose | pkg/nodereputation/noderepuation.go:66-76 | with the fixed order and a tied timestamp position, a record with modified shards loses to one without |
| NodeReputation.FirstPositionDecides | pkg/nodereputation/noderepuation.go:181-189 | with the fixed order, a decided timestamp position decides the winner |
| NodeReputation.FixedCodes | pkg/nodereputation/noderepuation.go:181-189 | the seven-column order gives seven-position codes whose first positions are the timestamp and shards bits |
| NodeReputation.EndianReputation | pkg/nodereputation/noderepuation.go:167-201 | a failed query or scan returns `newReputationRow("self","identity")`; otherwise the endian fold over the rows with the fixed order; the result is the seed or a row; `ok` iff nothing failed |
| Strconv.NatToDecimal | storage/sqlite3/nodereputation.go:288 | a non-empty string of decimal digits without a leading zero |
| Strconv.DigitsValueOfDecimal | storage/sqlite3/nodereputation.go:288 | reading the decimal text back gives the number |
| Strconv.FormatInt | pkg/repeatjobs/repeat_test.go:22-24 | a non-empty text that starts with '-' iff the number is negative |
| Strconv.ParseInt | pkg/nodereputation/handler.go:178 | a parsed value comes from a non-empty text and its sign follows the leading '-' |
| Strconv.ParseFormatRoundTrip | pkg/nodereputation/handler.go:178 | parsing the decimal text of any int64 gives it back |
| Strconv.ParseIntRejects | pkg/nodereputation/handler.go:178-180 | the empty text, a lone sign, a non-digit after the first character and a bad first character are errors |
| Strconv.ParseIntAcceptsDigits | pkg/nodereputation/handler.go:178 | any non-empty digit string whose value fits in int64 parses to that value, also with a leading `+`, and with a leading `-` to its negation |
| Strconv.ParseIntLeadingZero | pkg/nodereputation/handler.go:178 | a leading zero is accepted and leaves the value unchanged |
| Strconv.ParseIntOutOfRange | pkg/nodereputation/handler.go:178-180 | the text of a number outside int64 is an error |
| SqlGen.TableColumnInjective | storage/sqlite3/nodereputation.go:178-195 | different counters are written under different SQL column names |
| SqlGen.UpdateStatementShape | storage/sqlite3/nodereputation.go:172-203 | no updates gives the fixed "no updates" SELECT; otherwise the text starts with the `UPDATE … SET last_seen = …` prefix and ends with `WHERE node_name = '<node>';` |
| SqlGen.UpdateClausesAppend | storage/sqlite3/nodereputation.go:178-195 | the clauses of two update lists are the first list's clauses followed by the second's |
| SqlGen.NonCounterUpdateIgnored | storage/sqlite3/nodereputation.go:179-194 | an update of a non-counter column can be removed without changing the statement |
| SqlGen.SingleCounterUpdate | storage/sqlite3/nodereputation.go:173-197 | one counter update gives prefix, `, <column> = <value>` and the WHERE text with no space before it |
| SqlGen.GenUpdateStatement | storage/sqlite3/nodereputation.go:172-203 | the loop builds exactly `UpdateStatement` |
| SqlGen.ToString | storage/sqlite3/nodereputation.go:219-237 | each of the six operators is written as itself; any other value as "" |
| SqlGen.ToStringIdempotent | storage/sqlite3/nodereputation.go:219-237 | writing an operator's text again changes nothing |
| SqlGen.WhereFragmentDefined | storage/sqlite3/nodereputation.go:251-273 | a filter has no fragment exactly for the source and timestamp columns |
| SqlGen.CounterFilterColumn | storage/sqlite3/nodereputation.go:256-269 | a counter filter uses the table's column name, except audit success, which is written `audit_succes` |
| SqlGen.FilterTexts | storage/sqlite3/nodereputation.go:252-269 | node name values are quoted, lastseen becomes `timestamp<op> STRFTIME('%Y-%m-%d %H:%M:%f',<value>)`, counters get ` <value>` |
| SqlGen.WhereClauseAllRecognised | storage/sqlite3/nodereputation.go:247-274 | with every column recognised, the clause is ` WHERE` followed by every fragment in order, with no AND between them |
| SqlGen.WhereClauseAfterReset | storage/sqlite3/nodereputation.go:271-272 | after the last unrecognised filter only the later fragments remain, and the ` WHERE` is lost |
| SqlGen.WhereClauseSingle | storage/sqlite3/nodereputation.go:247-274 | one filter gives ` WHERE` and its fragment, or "" when its column is unrecognised |
| SqlGen.WhereStatementLimit | storage/sqlite3/nodereputation.go:276-288 | the query starts with the fixed SELECT text and ends with ` LIMIT ` and the decimal digits of the limit, which read back as the limit |
| SqlGen.WhereStatementNoFilters | storage/sqlite3/nodereputation.go:247-288 | with no filters the query is the SELECT text, ` WHERE LIMIT ` and the limit |
| SqlGen.GenWhereStatement | storage/sqlite3/nodereputation.go:246-289 | the loop builds exactly `WhereStatement` |
| Handler.ToWhereOpt | pkg/nodereputation/handler.go:89-108 | every operand maps to one of the six operators; an unknown operand maps to `!=` |
| Handler.OperandRoundTrip | pkg/nodereputation/handler.go:89-108 | on the six known operands and the six operators, the mapping and its inverse `OperandOf` undo each other |
| Handler.OperandText | pkg/nodereputation/handler.go:89-108 | the operator a constraint maps to is written verbatim into the query |
| Handler.ToColumn | pkg/nodereputation/handler.go:111-137 | no protocol column maps to lastseen; an unknown one maps to the source column |
| Handler.ColumnRoundTrip | pkg/nodereputation/handler.go:111-137 | on the known names and every column but lastseen, the mapping and its inverse `ProtoColumnOf` undo each other |
| Handler.LookupQuery | pkg/nodereputation/handler.go:164 | the lookup query of `insertNodeUpdate` and `byNodeName` is the query `selectNodeWhere` builds for the constraint node name equal to the given name |
| Handler.LookupQueryText | pkg/nodereputation/handler.go:164 | the lookup query is the SELECT text, ` WHERE node_name= '<name>'` and ` LIMIT 10` |
| Handler.ByNodeName | pkg/nodereputation/handler.go:77-86 | the endian winner of the selected rows when reading succeeded, the zero record otherwise; `ok` iff nothing failed |
| Handler.FilterQuery | pkg/nodereputation/handler.go:144 | the `selectNodeWhere` query starts with the SELECT text and ends with ` LIMIT 10`, whatever the constraint |
| Handler.FilterQueryWithoutWhere | pkg/nodereputation/handler.go:144 | a constraint on the source, timestamp or an unknown column gives a query with no WHERE clause at all |
| Handler.SelectedRow | pkg/nodereputation/noderepuation.go:167-198 | the record the lookup leaves in `row`: the `("self", "identity")` seed when the query or the scan failed; in every case the seed or one of the returned rows |
| Handler.Renamed | pkg/nodereputation/handler.go:170-174 | the record takes the request's node name, and its source when the names differed; timestamp and counters are kept |
| Handler.Decide | pkg/nodereputation/handler.go:176-257 | success iff the column is a counter and the value parses as int64; a record is inserted iff the column is a counter; on success it is the renamed row with that counter overwritten, otherwise the renamed row unchanged |
| Handler.SuccessfulUpdateRecord | pkg/nodereputation/handler.go:176-186 | on success the inserted record carries the parsed value in the updated counter and the selected row's values in every other counter |
| Handler.StatusIgnoresLookup | pkg/nodereputation/handler.go:162-168 | the status does not depend on whether the lookup failed: the column branch overwrites it |
| Handler.FormattedValueStored | pkg/nodereputation/handler.go:178-184 | a counter update whose value is the decimal text of an int64 succeeds and stores exactly that value |
| Handler.ReputationDb.InsertRows | pkg/nodereputation/handler.go:186 | the rows handed to `insertRows` are logged, in order, and nothing else changes |
| Handler.ReputationDb.InsertNodeUpdate | pkg/nodereputation/handler.go:161-260 | queries with the lookup query, answers `Decide`'s status and appends exactly the record `Decide` inserts, if any |
| Jobs.Step | pkg/repeatjobs/repeat_test.go:25-70 | `inc` adds one and asks again iff the new value is below 10; `dec` subtracts one and asks again iff it is above 0; both wrap around as Go's 64-bit `int` does; neither returns an error; a scripted job only asks again while its script lasts |
| Jobs.WrapsAtTheEnds | pkg/repeatjobs/repeat_test.go:27-29 | `inc` at the largest int64 wraps to the smallest and asks again; `dec` at the smallest wraps to the largest and asks again |
| Jobs.StepDecreases | pkg/repeatjobs/repeat_test.go:25-34 | a call that asks to run again lowers the job's potential, so no job asks again forever |
| Jobs.IncFinal | pkg/repeatjobs/repeat_test.go:25-34 | an `inc` job run to the end stops at 10, or one above its start when that is 10 or more; from the largest int64 it wraps and counts up to 10 |
| Jobs.DecFinal | pkg/repeatjobs/repeat_test.go:61-70 | a `dec` job run to the end stops at 0, or one below its start when that is 0 or less; from the smallest int64 it wraps and counts down to 0 |
| Jobs.Job.Name | pkg/repeatjobs/repeat_test.go:19-21 | `Name` returns the job's id |
| Jobs.Job.State | pkg/repeatjobs/repeat_test.go:22-24 | `State` is the counter's decimal text, which parses back to the counter |
| Jobs.Job.Repeat | pkg/repeat/repeater.go:8 | the call advances the job's counter by one `Step` and returns that step's answer and error |
| RepeatDriver.SurvivorsDecrease | pkg/repeat/repeat.go:25-30 | a round lowers the measure by at least the number of jobs it runs, so the recursion ends |
| RepeatDriver.SurvivorsAppend | pkg/repeat/repeat.go:25-27 | the kept jobs of a list are those of each part in turn, so kept jobs keep their relative order |
| RepeatDriver.SurvivorOfOne | pkg/repeat/repeat.go:20-27 | a job is kept iff its call asked to run again, whether or not the call also failed |
| RepeatDriver.RoundMessagesCount | pkg/repeat/repeat.go:21-24 | a round adds exactly one message per failed call |
| RepeatDriver.UnscriptedRound | pkg/repeatjobs/repeat_test.go:25-70 | a round of `inc` and `dec` jobs adds no message and keeps only such jobs |
| RepeatDriver.UnscriptedRunHasNoMessages | pkg/repeatjobs/repeat_test.go:25-70 | a whole run of `inc` and `dec` jobs adds no message |
| RepeatDriver.Visit | pkg/repeat/repeat.go:19-27 | one iteration calls the job at index i once, appends its message if it failed and keeps it if it asked again |
| RepeatDriver.Round | pkg/repeat/repeat.go:16-28 | every job is called once, in list order; the messages are those of the failed calls in order; the kept jobs are exactly those whose call asked to run again, in order and without repetition |
| RepeatDriver.Repeat | pkg/repeat/repeat.go:11-31 | returns the given errors followed by every round's messages, so earlier errors stay a prefix and an empty list returns them unchanged; every job ends at the counter its own calls lead to once one returns false |
| RepeatDriver.Message | pkg/repeat/repeat.go:22 | the message starts with `error at index <i> for job <name> with state ` and ends with `<state> err <err>` |
| RepeatDriver.FailingCallReported | pkg/repeat/repeat.go:19-30 | for any job list and any index whose call fails, the message `error at index <i> for job <name> with state <state after the call> err <err>` is among the round's messages and so among the run's |
| RepeatDriver.RoundMessagesAreFailures | pkg/repeat/repeat.go:19-24 | every message of a round is the report of a failing call at some index of the list |
| RepeatDriver.OneFailingCall | pkg/repeat/repeat.go:11-31 | a run of one job whose only call fails reports exactly `error at index 0 for job <name> with state 1 err <err>` |
| RepeatDriver.FailedJobRunsAgain | pkg/repeat/repeat.go:20-27 | a lone job whose first call fails and asks to run again is called a second time, and both failures are reported at index 0, with states 1 and 2 |
| RepeatJobs.CountUpToTen | pkg/repeatjobs/repeat_test.go:36-48 | an `inc` job from 1 reads "1" before the run and "10" after it, and no error is recorded |
| RepeatJobs.CountDownToZero | pkg/repeatjobs/repeat_test.go:72-84 | a `dec` job from 10 reads "10" before the run and "0" after it, and no error is recorded |
| RepeatJobs.UpAndDown | pkg/repeatjobs/repeat_test.go:86-104 | an `inc` job from 0 and a `dec` job from 10 end at "10" and "0" when run together |

`Records.PerformOp` and `Records.Morphism` also model `performOp` and `morphism` of pkg/nodereputation/noderepuation.go:213-246. That code is the same with explicit int64 counters.

## Left out

- Floating point: `auditSuccessRatio` returns a float64 in reputation.go and a float32 in noderepuation.go. Both are modelled as exact rationals compared by cross-multiplication. Once the counters exceed 2^24 (float32) or 2^53 (float64), rounding the numerator and the denominator separately can make two different ratios compare equal, or reverse their order. Then the model can give the ratio position's '1' to a different record from the program, in either direction. Example, for float32: success 16777217 and fail 1 against success 16777215 and fail 1.
- `naiveRep` (reputation/reputation.go:241-255) and every float score are left out. `Reputation.GreaterRep` takes the score comparison as a boolean and `Reputation.NaiveReputation` takes it as a function parameter.
- `selectNodeWhere`'s `serde(naiveScore())` scoring of the returned rows is left out; only its query (`Handler.FilterQuery`) is modelled.
- All SQLite and file I/O is left out:
  - `startDB`, `createTable`, `insertRows`/`InsertRows`, `selectFromDB`, `iterOnDBRows`, `getNodeReputationRecords`, `pruneNodeReputationRecords`, `SetServerDB`, `EndServerDB`, `closeDB`, `cleanUpDB`.
  - Query results and their failures are inputs.
  - Inserted records go to a ghost log of whole records. The real `InsertRows` (storage/sqlite3/nodereputation.go:130-158) stores only the node name and the seven counters. `last_seen` defaults to the insertion time. The source and the timestamp are not stored, so a record read back can differ from the record handed in.
  - The table's column names (storage/sqlite3/nodereputation.go:81-92) appear as `SqlGen.TableColumn`.
- The gRPC `Server` methods (pkg/nodereputation/handler.go:19-74) open a database per call and are left out. `PruneNodeReputation` does nothing.
- pkg/kademlia/dht.go wraps a DHT library whose code is not part of this model. It, the overlay mocks and tests, and the example client are left out.
- Logging (`log.Printf`, and `fmt.Printf` in reputation.go's `endian`) is left out.
- The constants `sourceColumn` and `timestampColumn` are not defined in the files modelled here. They are taken as two further distinct columns (`Source`, `Timestamp`) that no SQL builder recognises.
- `insertNodeUpdate`'s seven-way switch is expressed once, through `IsCounter`. The builders' switches are expressed through `SqlGen.TableColumn` and `SqlGen.FilterColumn`.
- RepeatDriver.Repeat: requires the job list to hold distinct objects. In Go the same job may appear twice in the slice and is then called twice per round; the model does not cover that aliasing.
- RepeatDriver.Repeat: Go's `Repeat` need not terminate for an arbitrary `Repeater`. The model covers the `inc`, `dec` and scripted jobs, whose potential bounds the number of rounds.
- Jobs.Job.Repeat: an arbitrary `Repeater` implementation is represented by a scripted job whose outcomes are given in advance. A job whose answers depend on other state is not covered.
- Lex.StrLess: compares Dafny characters where Go compares UTF-8 bytes. The two orders agree on ASCII text such as the timestamps.
- `fmt.Sprintf("%v", err)` of an error is modelled as the error's message text.
