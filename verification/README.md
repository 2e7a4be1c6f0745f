# Factory tree: a verified model of its database layer and validators

The application keeps "factories": a name, a lower and an upper bound, and a
list of random child numbers within those bounds. A Flask / Socket.IO server
stores them in PostgreSQL, and a React page edits them and keeps a live list.

This project models, in Dafny, the parts of that system that decide what
happens, and proves what they promise:

- `python.dfy` holds the Python values the database layer handles (`Py`, and
  dicts as insertion-ordered key/value lists). It also holds the built-ins the
  layer relies on: `sorted` on strings, `str.join` and `str.strip`.
- `sql.dfy` (module `Sql`) models the statement builders of `flask/jlr/sql.py`:
  - `insert`, `update`, `bulk_insert` and `get_pct_s_string`.
  - The row-shaping query helpers `query_single_row`, `query_single_value`,
    `query_single_column` and `query_json_strings`.
  - Each builder yields the statement text and its parameters. Running the
    statement is an abstract database whose answer (`Reply`) is an input.
- `db.dfy` (module `Db`) models `ManagedConnection` of `flask/jlr/db.py`.
  - Pure step functions over the manager's fields state the behaviour.
  - A class with the same fields is proved to take exactly those steps.
  - A ghost log records what is sent to the physical connection. Over any
    sequence of operations, the log never opens a second connection and never
    commits, rolls back or closes without one.
- `flask_app.dfy` (module `FlaskApp`) models the server's parameter check,
  `complain_about_factory_params`.
- `factory_model.dfy` (module `FactoryModel`) models `update_factory`: which
  columns an edit rewrites, the update it issues and the record it returns.
- `app_js.dfy` (module `App`) and `components_js.dfy` (module `Components`)
  model the client:
  - the editors' validity rules and save-button rule;
  - the factory list kept up to date from the server's broadcasts;
  - `plural`.
  - They also prove that whatever the client lets a user save, the server
    accepts.

## Model

| member | source | states |
|---|---|---|
| `Python.GetOrNone` | flask/jlr/sql.py:286 | `d.get(k, None)`: a value other than None is only found under a key of the dict |
| `Python.GetOrNoneSpec` | flask/jlr/sql.py:286 | `d.get(k, None)` is None for a missing key and the value of the key's first entry for a present one; with distinct keys, the key's only value |
| `Python.SortStrings` | flask/jlr/sql.py:135 | `sorted(keys)` is a permutation of its input, of the same length |
| `Python.SortStringsSorted` | flask/jlr/sql.py:135 | `sorted(keys)` is in ascending code-point order |
| `Python.SortedPermutationUnique` | flask/jlr/sql.py:241-244 | two ascending arrangements of the same strings are equal, so the model's sort is Python's |
| `Python.JoinEmpty` | flask/jlr/sql.py:159-162 | with a non-empty separator, the joined text is empty only for no part or one empty part |
| `Python.StripLeftSpec` | flask/factory_model.py:46 | `lstrip` leaves the suffix after the leading whitespace, and that suffix does not start with whitespace |
| `Python.StripRightSpec` | flask/factory_model.py:46 | `rstrip` leaves the prefix before the trailing whitespace, and that prefix does not end with whitespace |
| `Python.StripSpec` | flask/factory_model.py:46 | `str.strip()` returns a slice of the input with only whitespace before and after it |
| `Python.StripEnds` | flask/factory_model.py:46 | the stripped text neither starts nor ends with whitespace |
| `Python.StripIdempotent` | flask/factory_model.py:46 | stripping a stripped name changes nothing |
| `Sql.PctS` | flask/jlr/sql.py:216-218 | `get_pct_s_string(n)`: n `%s` markers joined by `","`; its marker count is stated by `Sql.PctSPlaceholders` |
| `Sql.PctSPlaceholders` | flask/jlr/sql.py:216-218 | `get_pct_s_string` of n values holds exactly n `%s` markers, and is empty only for n = 0 |
| `Sql.InsertClauses` | flask/jlr/sql.py:145-156 | the loop collects exactly the insert columns and, for each, its value entry |
| `Sql.Insert` | flask/jlr/sql.py:124-181 | the statement is the insert text over those columns, bound by name to the row dict; the result is the fetched row when the joined `return_columns` is non-empty, else the row count |
| `Sql.InsertColumnsSpec` | flask/jlr/sql.py:135-150 | the columns are sorted and are exactly the row's keys that are neither excluded nor None-valued; each appears once |
| `Sql.InsertValuesSpec` | flask/jlr/sql.py:151-156 | one value entry per column: the literal's own text for a `LiteralValue`, else the marker `%(col)s` |
| `Sql.InsertStatementForms` | flask/jlr/sql.py:159-171 | for any columns and value entries: no column, or one empty column name (whose joined text is empty too), gives `insert into T default values`; otherwise `insert into T (cols) values (vals)`; a requested `returning` clause follows either |
| `Sql.Update` | flask/jlr/sql.py:183-213 | the builder succeeds iff every where pair has length 2, a `str` head and a `%s`, and every set pair has length 2, a `str` head and no `%s`; a bad where pair is reported as such |
| `Sql.UpdateLayout` | flask/jlr/sql.py:196-211 | the set values are bound first, in order, then the where values; the text is `update T set c1 = %s, ... where e1, e2`, with the where parts joined by `", "` |
| `Sql.UpdatePlaceholders` | flask/jlr/sql.py:196-205 | the set part holds one marker per set value; the where part holds at least one per where value, and exactly one each when each condition holds one |
| `Sql.UpdateExample` | flask/jlr/sql.py:183-213 | `update('factory', [('id = %s', 7)], [('name', 'Acme')])` is `update factory set name = %s where id = %s` with parameters `['Acme', 7]` |
| `Sql.FirstColumn` | flask/jlr/sql.py:18-29 | `[r[0] for r in rows]` succeeds iff no row is empty, and then holds each row's first value in order |
| `Sql.QuerySingleColumn` | flask/jlr/sql.py:18-29 | `query_single_column` is `[r[0] for r in rows]` over the reply's rows, whose contract `Sql.FirstColumn` states |
| `Sql.TableColumns` | flask/jlr/sql.py:249-262 | the table's column list is the probe columns followed by the every-row keys, in their order |
| `Sql.CollectRows` | flask/jlr/sql.py:284-289 | the loop yields one row tuple per row and the row-major argument list |
| `Sql.BulkInsert` | flask/jlr/sql.py:220-313 | no rows: nothing is executed and None is returned; otherwise the statement is the bulk text over the probe and every-row columns with the row-major argument list, and the result is the row count or the returned column |
| `Sql.ProbeColumnsSpec` | flask/jlr/sql.py:240-247 | the probe columns are sorted and are exactly the listed (or first-row) columns that are not excluded |
| `Sql.ProbeColumnsCounts` | flask/jlr/sql.py:240-247 | each kept column occurs in the probe columns exactly as often as in the listed (or first-row) columns, so sorting plus the exclusion is a permutation of the filtered list, and the probe columns are duplicate-free when that list is |
| `Sql.FilterCount` | flask/jlr/sql.py:246-247 | the exclusion filter keeps every occurrence of a kept column and none of an excluded one |
| `Sql.BulkArgsLength` | flask/jlr/sql.py:284-289 | the argument list holds rows x (columns + every-row values) values |
| `Sql.BulkArgsAppend` | flask/jlr/sql.py:284-289 | the argument list of two batches of rows is the first batch's list followed by the second's |
| `Sql.BulkArgsAt` | flask/jlr/sql.py:284-289 | value j of row r sits at index r x width + j: the row's value for that column (None when missing), or the every-row value |
| `Sql.RowTuplePlaceholders` | flask/jlr/sql.py:264-269 | each row tuple is parenthesised and holds one marker per probe column and per every-row value |
| `Sql.ValuesClausePlaceholders` | flask/jlr/sql.py:285-293 | the values clause holds rows x (columns + extras) markers |
| `Sql.BulkPlaceholdersMatchArgs` | flask/jlr/sql.py:264-301 | the values clause binds exactly as many markers as the argument list holds values |
| `Sql.QuerySingleRow` | flask/jlr/sql.py:51-65 | two or more rows fail the assertion; otherwise the first row is returned, or None when there is no row |
| `Sql.QuerySingleValue` | flask/jlr/sql.py:32-49 | two or more rows fail the assertion; a row count other than 1 gives None; one row gives its first value |
| `Sql.QueryJsonStrings` | flask/jlr/sql.py:81-109 | no row gives `[]`; it succeeds iff every row has a first value that is text and the first row's is a `str`; a non-empty success is `[`, the texts joined by `",\n "`, then `]`; failures are a missing first column or a non-string |
| `Db.InitialState` | flask/jlr/db.py:79-86 | `__init__`'s fields: no connection, not busy, never used, commit on completion; the constructor is proved to reach it |
| `Db.CloseStep` | flask/jlr/db.py:101-106 | `close()`: drops the connection and the busy flag, sending a close only to an open connection; stated by `Db.CloseIdempotent` |
| `Db.BeginStep` | flask/jlr/db.py:109-124 | `begin_transaction()`: connect when closed, roll back a busy transaction, then connected, busy and stamped; stated by `Db.BeginSpec` |
| `Db.SetRollbackOnlyStep` | flask/jlr/db.py:127-130 | `set_rollback_only()` clears the commit flag; stated by `Db.SetRollbackOnlyIdempotent` |
| `Db.CompleteStep` | flask/jlr/db.py:132-140 | `complete_transaction()`: commit or roll back an open connection and go idle; stated by `Db.CompleteSpec` |
| `Db.IdleExpired` | flask/jlr/db.py:93-95 | the closing thread's test: idle, connected and unused for strictly longer than the timeout |
| `Db.ReaperStep` | flask/jlr/db.py:89-99 | one wake-up of the closing thread; stated by `Db.ReaperSpec` |
| `Db.WithTransactionStep` | flask/jlr/db.py:144-163 | `with_transaction(func)`: begin, run, mark rollback-only on an exception, complete; stated by `Db.WithTransactionSpec` and `Db.WithTransactionUnfold` |
| `Db.BeginSpec` | flask/jlr/db.py:109-124 | a connection is opened only when none exists; a rollback is sent iff the manager was busy; begin fails, changing nothing, only when that connect fails; afterwards the manager is connected, busy and stamped with now, and nothing is committed or closed |
| `Db.BeginWhileBusyRollsBack` | flask/jlr/db.py:113-122 | beginning on an open, busy connection sends exactly one rollback and restamps the time |
| `Db.RollbackOnlyThenCompleteRollsBack` | flask/jlr/db.py:127-138 | rollback-only then complete, with a connection, rolls back, leaves the manager idle and resets the flag to commit |
| `Db.SetRollbackOnlyIdempotent` | flask/jlr/db.py:127-130 | setting rollback-only twice is the same as once |
| `Db.CompleteSpec` | flask/jlr/db.py:132-140 | complete always leaves the manager idle (commit and rollback are taken to succeed), keeps the connection and its last-used time; it commits iff connected with the flag set and rolls back iff connected with it cleared; with no connection it sends nothing and keeps the flag |
| `Db.CloseIdempotent` | flask/jlr/db.py:101-106 | close drops the connection and the busy flag and keeps the last-used time and the commit flag; closing again changes and sends nothing |
| `Db.ReaperSpec` | flask/jlr/db.py:93-97 | the closing thread never touches a busy manager; it closes iff idle, connected and unused for strictly longer than the timeout |
| `Db.WithTransactionSpec` | flask/jlr/db.py:152-161 | a wrapped call ends in one commit or one rollback, committing iff the flag was set and the function neither set rollback-only nor raised an `Exception`; the exception is passed on; the next transaction starts with the flag set |
| `Db.WithTransactionUnfold` | flask/jlr/db.py:144-163 | with a connection open or opening, the wrapped call ends connected, idle, stamped with now and set to commit, having sent begin's events and then one commit or rollback |
| `Db.WithTransactionConnectFails` | flask/jlr/db.py:154 | a failing connect raises before the function runs and changes nothing |
| `Db.ApplyConsistent` | flask/jlr/db.py:101-161 | every operation keeps "an open connection has a last-used time" |
| `Db.Run` | flask/jlr/db.py:101-161 | any sequence of operations keeps that invariant |
| `Db.BeginFollowsProtocol` | flask/jlr/db.py:109-124 | begin's events connect only when closed and leave the connection open |
| `Db.CompleteFollowsProtocol` | flask/jlr/db.py:132-140 | complete commits or rolls back only an open connection |
| `Db.ApplyFollowsProtocol` | flask/jlr/db.py:101-161 | each operation's events follow the connection protocol from the state it starts in |
| `Db.RunFollowsProtocol` | flask/jlr/db.py:101-161 | over any run, no second connection is opened and nothing is sent to a closed one |
| `Db.ManagedConnection.constructor` | flask/jlr/db.py:79-86 | a new manager has no connection, is not busy, was never used and will commit |
| `Db.ManagedConnection.Close` | flask/jlr/db.py:101-106 | the fields and the log take the close step |
| `Db.ManagedConnection.BeginTransaction` | flask/jlr/db.py:109-124 | the fields and the log take the begin step; the returned connection is the open one, new only if none was open |
| `Db.ManagedConnection.SetRollbackOnly` | flask/jlr/db.py:127-130 | only the flag changes, to rollback; the connection object is kept |
| `Db.ManagedConnection.CompleteTransaction` | flask/jlr/db.py:132-140 | the fields and the log take the complete step; the connection is kept |
| `Db.ManagedConnection.ShouldClose` | flask/jlr/db.py:93-95 | the closing thread's test is the idle-and-expired predicate |
| `Db.ManagedConnection.ReaperTick` | flask/jlr/db.py:89-99 | one wake-up of the closing thread takes the reaper step: an expired connection is dropped, any other is kept |
| `Db.ManagedConnection.WithTransaction` | flask/jlr/db.py:144-163 | a wrapped call takes the `with_transaction` step and reports whether it raised; an open connection is reused, not replaced |
| `FlaskApp.FirstComplaint` | flask/flask_app.py:49-63 | checks run in order and only the first failing one is reported: types, then name length, then lower bound, then upper bound |
| `FlaskApp.ComplainAboutFactoryParams` | flask/flask_app.py:48-66 | no complaint iff the name is exactly a `str` under 256 characters (empty allowed) and the bounds are exactly `int` with 0 <= min < max <= 1000 |
| `FlaskApp.ComplaintExamples` | flask/flask_app.py:48-66 | the empty name passes; a `bool` bound or a `str` subclass name is a type error; a long name is reported before bad bounds |
| `FactoryModel.Changes` | flask/factory_model.py:56-71 | the set pairs an edit produces; stated by `FactoryModel.ChangesEmpty`, `FactoryModel.ChangesColumns` and `FactoryModel.ChangesValues` |
| `FactoryModel.UpdateFactory` | flask/factory_model.py:40-81 | no stored row: not found, nothing issued; no change: "Nothing to change!", nothing issued; otherwise the update by id with the change list is issued, a zero count fails, and the record carries the id, stripped name, new bounds and the new or kept numbers |
| `FactoryModel.ChangesEmpty` | flask/factory_model.py:56-74 | nothing changes iff both bounds and the stripped name equal the stored ones |
| `FactoryModel.ChangesColumns` | flask/factory_model.py:56-71 | `numbers`, `min_value`, `max_value` in that order iff the bounds changed, then `name` iff the name changed; each at most once |
| `FactoryModel.ChangesValues` | flask/factory_model.py:58-71 | each changed column is bound to its new value: the regenerated numbers, the new bounds or the stripped name |
| `FactoryModel.ChangesAccepted` | flask/factory_model.py:76 | the update builder accepts the id condition and every change list the edit can produce |
| `FactoryModel.ChangesUpdateOk` | flask/factory_model.py:76 | the statement sets each changed column, ends in `where id = %s` and binds the new values then the id |
| `FactoryModel.WhereIdOk` | flask/factory_model.py:76 | `('id = %s', factory_id)` is a valid where pair whose condition and value are passed through |
| `App.IsHappy` | html/src/App.js:31-36 | the page's rule: a name of 1 to 255 characters and 0 < min < max <= 1000; compared with the server by `App.IsHappyServerAccepts` |
| `App.IsHappyServerAccepts` | html/src/App.js:31-36 | fields the page accepts pass the server's check |
| `App.ServerAcceptsMoreThanClient` | html/src/App.js:31-36 | the converse fails: an empty name or a lower bound of 0 passes the server but not the page |
| `App.OpenEditor` | html/src/App.js:16-25 | a new editor holds the factory's name and bounds, starts unchanged, and has its validity computed from them |
| `App.Refresh` | html/src/App.js:38-44 | `componentDidUpdate` recomputes validity and nothing else |
| `App.SetName` | html/src/App.js:51-54 | editing the name marks the editor changed and touches nothing else |
| `App.SetMinValue` | html/src/App.js:56-59 | editing the lower bound marks the editor changed and touches nothing else |
| `App.SetMaxValue` | html/src/App.js:61-64 | editing the upper bound marks the editor changed and touches nothing else |
| `App.SaveDisabled` | html/src/App.js:76 | with the validity flag up to date, save is enabled iff the name and bounds pass `App.IsHappy` and the editor was edited |
| `App.SaveRules` | html/src/App.js:76 | a new editor cannot save; after an edit and a refresh, save is enabled iff the fields are valid, and then the server accepts them |
| `App.RemoveId` | html/src/App.js:268-273 | removing an id keeps exactly the factories with other ids, and an absent id changes nothing |
| `App.RemoveIdAppend` | html/src/App.js:271 | removal distributes over concatenation, so survivors keep their order |
| `App.FindIndex` | html/src/App.js:279 | the first index holding the id, or -1 iff no factory has it |
| `App.ReplaceById` | html/src/App.js:275-286 | `factory_updated`'s list update: replace the first entry with the id; stated by `App.ReplaceByIdSpec` |
| `App.ReplaceByIdSpec` | html/src/App.js:275-286 | only the first entry with the id is replaced; length and other entries stay; an unknown id changes nothing; replaying the update changes nothing more |
| `App.NewThenDeleted` | html/src/App.js:261-273 | a new factory with a fresh id, then its deletion, restores the list |
| `App.FactoryList.constructor` | html/src/App.js:184-196 | the page starts with no factories |
| `App.FactoryList.OnFactories` | html/src/App.js:256-259 | the list becomes the server's list |
| `App.FactoryList.OnNewFactory` | html/src/App.js:261-266 | the new factory is appended; earlier entries are unchanged |
| `App.FactoryList.OnFactoryDeleted` | html/src/App.js:268-273 | the list loses every factory with that id |
| `App.FactoryList.OnFactoryUpdated` | html/src/App.js:275-286 | the first factory with the id is replaced |
| `Components.IsHappy` | html/src/Components.js:111-118 | this editor's rule, with a child count of 1 to 15; related to the page's by `Components.IsHappyRefinesApp` |
| `Components.IsHappyRefinesApp` | html/src/Components.js:111-118 | this editor's rule is the page's rule plus a child count in 1..15 |
| `Components.Refresh` | html/src/Components.js:120-127 | `componentDidUpdate` recomputes validity and nothing else |
| `Components.SetNumberCount` | html/src/Components.js:150-153 | editing the count marks the editor changed and touches nothing else |
| `Components.SaveDisabled` | html/src/Components.js:168 | with the validity flag up to date, save is enabled iff the fields, child count included, pass `Components.IsHappy` and the editor was edited |
| `Components.SaveRules` | html/src/Components.js:114-168 | after an edit and a refresh, save is enabled iff the fields are valid; a count outside 1..15 keeps it disabled |
| `Components.NatToString` | html/src/Components.js:204 | decimal digits only, with no leading zero |
| `Components.IntToString` | html/src/Components.js:204 | `'' + value` is non-empty, starts with `-` iff the value is negative, and holds no space |
| `Components.IntToStringRoundTrip` | html/src/Components.js:204 | the number's text reads back as the number |
| `Components.Plural` | html/src/Components.js:201-207 | `plural(value, singular, plural)`: the number's text, a space, and the word for that count; stated by `Components.PluralSpec` |
| `Components.PluralSpec` | html/src/Components.js:201-207 | up to the first space is the number's text, which reads back as the value; the rest is the singular word for 1 and the plural otherwise |

## Left out

- Running statements is not modelled: psycopg2, cursors, `fetchone`/`fetchall` and the connection string are foreign code. A builder's statement is its output, and the database's answer (`Reply`) is an input.
- The `e.statement` attached to a failing insert is not modelled. `LiteralValue`'s adaptation hooks are left out too: a literal is a tagged string.
- The thin wrappers `query` and `execute` are not modelled; nor are `all_factories`, `create_factory` and `delete_factory`, which only pass a statement through.
- The closing thread's `while True`, `time.sleep` and `threading` are left out. One wake-up is `ReaperTick(now)`, and `time.time()` is the parameter `now`.
- Concurrency between that thread and requests is not modelled: operations are taken one at a time.
- `psycopg2.connect` failing is the parameter `connectOk`. The connection parameters and cursor factory are not kept.
- `Db.CompleteStep`: `commit()`, `rollback()` and `close()` on the connection are taken never to raise. In the code a raising commit or rollback skips `self.busy = False` (and a raising rollback the reset of the commit flag), leaving the manager busy; `Db.CompleteSpec`, `Db.WithTransactionSpec` and the protocol lemmas hold only when these calls succeed.
- `Db.WithTransactionStep`: `Action.raises` stands for an `Exception`, which the wrapper catches and turns into a rollback. A `BaseException` that is not an `Exception` (`KeyboardInterrupt`, `SystemExit`, `GreenletExit`) skips `set_rollback_only()`, and the `finally` then commits; that outcome is not modelled.
- The module-level singleton, the Flask and Socket.IO hooks, `register_composite_types`, `reply_error` and the socket handlers are glue and are not modelled.
- `edit_factory` reports a non-int id but carries on. That path is glue and is not modelled.
- `generate_numbers` and `random_in_range` draw random numbers. Their result is the input `generated`.
- React rendering, focus, `setState` scheduling and the socket lifecycle are not modelled.
- `FactoryModel.UpdateFactory`: the source calls `sql.update_builder`, which `flask/jlr/sql.py` does not define (it defines `update`). The call is modelled as `Sql.Update`. The raised error on a row count of 0 follows `if not update_count`.
- `FactoryModel.UpdateFactory` takes the id as an `int`, as annotated. The stored row and its numbers are integers, as the schema holds them.
- `Sql.Update`: the where parts are joined with `", "`, as the code does, although two conditions would need `and`. The where check only asks for at least one `%s`, as the code does.
- `Sql.BulkInsert` returns None for no rows, as the code does. An empty `addToEveryRow` and an empty `return_column` stand for None, as Python's truth test treats them alike. A `None` `excludeKeys` is the empty set.
- `Sql.Insert`: a `None` `excludeKeys` is the empty set.
- `Sql.QueryJsonStrings`: a non-string row after the first is reported as `NotAString`, the model of the `TypeError` from `str.join`.
- `App.IsHappy` and `Components.IsHappy`: JavaScript's `name.length` counts UTF-16 code units; the model counts characters. Field values are integers, whereas a JavaScript number may be fractional. The server's `len` also counts characters.
- `Components.IntToString`: only integers are printed. A fractional JavaScript number is out of scope.
- `Components.NatToString`: prints plain decimal digits for every integer. JavaScript's `'' + value` switches to exponent form (`1e+21`) from 10^21 on, and a JavaScript number is exact only up to 2^53; neither limit is modelled.
- `Db.ManagedConnection`: `now`, `lastUsed` and the timeout are mathematical reals, whereas `time.time()` gives floating-point seconds. Rounding in the closing thread's comparison is not modelled.
