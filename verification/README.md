# pg-data-validator: the check-evaluation engine

A Dafny model of the validation engine of `pg-data-validator`, a tool that
connects to PostgreSQL databases and runs a configured list of checks on each:
`PRINTER` (run a query and log its rows), `TABLE_EXISTS` (required base tables
exist in a schema), `COUNT_CHECK` (the first column of the first row compares
to a value with one of six operators) and `INCLUDES_CHECK` (every expected
tuple occurs among a query's rows).

The database is an oracle. It is a total function that takes the queries
already sent on the connection and the query at hand. It returns the fetched
rows (with column names), or a failure that stands for any exception the
driver raises. Every `try/except` of the source becomes a `Failed` branch. The
history matters: the program connects without autocommit and never rolls
back, so in PostgreSQL one failed statement aborts the transaction. A cursor
(`Queries.Cursor`) records the queries it executes. The model can therefore
state which queries each check sends, and that some checks send none.

Layout, one module per component:

- `wrappers.dfy`, `Wrappers`: `Option`.
- `values.dfy`, `Values`: the values a query yields or a configuration holds
  (`Null`, integers, strings). It also defines Python's code-point order on
  strings and proves that order total.
- `operators.dfy`, `Operators`: the operator registry (`Resolve`). `Eval` gives
  the integer semantics. `Compare` follows Python's `operator.*` on values:
  equality never raises, and an ordering between different kinds (or two
  `None`s) raises `TypeError`.
- `queries.dfy`, `Queries`: queries, results, the oracle and the cursor.
- `executors.dfy`, `Executors`: one function per check kind, giving its output
  and the queries it sent, and one method per kind that runs it on a cursor.
- `properties.dfy`, `CheckProperties`: lemmas that relate several executions.
- `dispatcher.dfy`, `Dispatcher` and `DispatchProperties`: the dispatch loop
  over one database's `validation` list, and what it guarantees.
- `runner.dfy`, `Runner`: the loop over `databases`, with connecting as an
  oracle.

The model follows the code as written, also where it departs from its evident intent:

- A check of unknown `type` is skipped silently. No event is produced for it.
- A failed connection ends the whole run (`sys.exit(1)` in
  `create_connection`). The run does not move on to the next database.
- A `PRINTER` check without a `query` key raises `KeyError` outside any `try`.
  That ends the run, and the model calls it `Crashed`.
- A failed query does not stay inside its own check. The `except` handlers
  log and return without a rollback. On a database that aborts the
  transaction after a failed statement, every later check on that connection
  therefore fails too (`DispatchFailureSpoilsRest`).
- `TABLE_EXISTS` uses the connection's `schema` setting whatever it holds
  (even `null` or `""`). `"public"` is used only when the key is absent.
- The verdicts are only logged. `main` discards them, so the exit status does
  not reflect them.

## Model

| member | source | states |
|---|---|---|
| `Operators.Resolve` | pg-data-validator.py:14-21 | exactly the six symbols `=`, `!=`, `>`, `>=`, `<`, `<=` resolve, each to the operator whose symbol it is; every other string resolves to `None` |
| `Operators.ResolveSymbol` | pg-data-validator.py:14-21 | the registry is a bijection onto its six operators: resolving an operator's symbol gives that operator |
| `Operators.Eval` | pg-data-validator.py:15-20 | on integers each operator is the mathematical relation it names (`eq`, `ne`, `gt`, `ge`, `lt`, `le`) |
| `Operators.Compare` | pg-data-validator.py:111 | `op_func(actual, value)` on values: integers compare numerically; `=`/`!=` are defined for all pairs and mean equality/inequality; an ordering between different kinds or `None`s is a TypeError (`None`) |
| `Operators.CompareMirror` | pg-data-validator.py:14-21 | `a op b` equals `b op' a` for the mirrored operator (`>` with `<`, `>=` with `<=`) on all values, strings included |
| `Operators.CompareNegation` | pg-data-validator.py:14-21 | where a comparison is defined, `!=`, `<=`, `<` answer the negation of `=`, `>`, `>=` |
| `Values.StrCmp` | pg-data-validator.py:111 | Python's string order: equal strings compare `Equal`, and a proper prefix comes before the longer string |
| `Values.StrCmpEqual` | pg-data-validator.py:111 | two strings compare equal under Python's string order exactly when they are identical |
| `Values.StrCmpFlip` | pg-data-validator.py:111 | swapping two strings flips their comparison (antisymmetry, totality) |
| `Values.StrCmpTransitive` | pg-data-validator.py:111 | string `<` is transitive |
| `Queries.Cursor.constructor` | pg-data-validator.py:171 | a new cursor on a database has executed nothing |
| `Queries.Cursor.Execute` | pg-data-validator.py:56-57 | executing a query yields the database's answer to it after the queries already sent on the connection, and appends it to the cursor's log |
| `Queries.PoisonedExtends` | pg-data-validator.py:170-171 | a history holding a failed query keeps it however many queries the same connection sends afterwards |
| `Executors.ZipDict` | pg-data-validator.py:61 | `dict(zip(columns, row))`: every key is a column name and every value a value of the row |
| `Executors.ZipDictKeys` | pg-data-validator.py:58-61 | a row's logged mapping has as keys exactly the column names zipped with a value |
| `Executors.ZipDictLastWins` | pg-data-validator.py:58-61 | a repeated column name is bound to the value of its last column |
| `Executors.Render` | pg-data-validator.py:59-61 | the logging loop yields one mapping per fetched row, in row order, each `dict(zip(columns, row))` |
| `Executors.Printer` | pg-data-validator.py:55-63 | PRINTER sends its query once, reports no listing iff the query fails, else the row count and one mapping per row |
| `Executors.RunPrinter` | pg-data-validator.py:48-63 | running PRINTER on a cursor returns `Printer`'s listing and logs exactly its query |
| `Executors.ExistingNames` | pg-data-validator.py:80 | the existing-name set is the set of first columns of the catalog rows; it is undefined (the check fails) iff some row is empty |
| `Executors.MissingTables` | pg-data-validator.py:81 | the missing list is never longer than the required list |
| `Executors.MissingTablesCount` | pg-data-validator.py:81 | a table is missing iff required and absent, and appears as often as it is required (duplicates kept) |
| `Executors.MissingTablesAppend` | pg-data-validator.py:81 | the missing list distributes over concatenation, so it keeps the input order |
| `Executors.TableExistsVerdict` | pg-data-validator.py:80-91 | TABLE_EXISTS passes iff the catalog query succeeds with well-formed rows and every required table is among the existing names |
| `Executors.TableExists` | pg-data-validator.py:72-91 | TABLE_EXISTS always sends exactly the one catalog query for its schema and reports the verdict on its answer |
| `Executors.TableExistsEmpty` | pg-data-validator.py:81-85 | with no required tables the check passes iff the catalog query succeeds (with non-empty rows) |
| `Executors.RunTableExists` | pg-data-validator.py:65-91 | running TABLE_EXISTS on a cursor returns `TableExists`'s verdict and logs its query |
| `Executors.CountVerdict` | pg-data-validator.py:104-119 | a failed query or no rows fails; a pass needs a first row with a column; on a first row with a column the check passes iff `Compare(op, row0[0], value)` is `Some(true)`, so a comparison TypeError fails it; on integers that is `Eval(op, row0[0], value)`; with `=` it is equality of `row0[0]` and `value` |
| `Executors.ResolveOperator` | pg-data-validator.py:99 | `OPERATORS.get(op_str)` on an optional key: an operator is found iff the key is present and holds one of the six symbols, and it is the operator of that symbol |
| `Executors.CountCheck` | pg-data-validator.py:99-119 | an unknown (or absent) operator, or an absent query, gives `false` with no query sent; otherwise exactly the configured query is sent and the verdict is `CountVerdict` on its answer |
| `Executors.RunCountCheck` | pg-data-validator.py:93-119 | running COUNT_CHECK on a cursor returns `CountCheck`'s verdict and logs exactly its queries |
| `Executors.MissingRows` | pg-data-validator.py:132-135 | the missing set holds exactly the expected tuples absent from the fetched rows |
| `Executors.IncludesVerdict` | pg-data-validator.py:129-145 | INCLUDES_CHECK passes iff the query succeeds and every expected tuple occurs among the rows |
| `Executors.IncludesCheck` | pg-data-validator.py:129-145 | an absent query gives `false` with no query sent; otherwise the configured query is sent once and the verdict is `IncludesVerdict` on its answer |
| `Executors.RunIncludesCheck` | pg-data-validator.py:120-145 | running INCLUDES_CHECK on a cursor returns `IncludesCheck`'s verdict and logs its queries |
| `CheckProperties.IncludesIgnoresOrderAndRepetition` | pg-data-validator.py:132-137 | the INCLUDES_CHECK verdict depends only on the sets of expected tuples and of rows |
| `CheckProperties.IncludesIgnoresPermutation` | pg-data-validator.py:132-137 | permuting the expected tuples or the rows leaves the verdict unchanged |
| `CheckProperties.IncludesSuperset` | pg-data-validator.py:132-139 | adding rows to a passing INCLUDES_CHECK's result keeps it passing |
| `CheckProperties.FailedQueryFails` | pg-data-validator.py:143-145 | a failed query fails TABLE_EXISTS, COUNT_CHECK and INCLUDES_CHECK |
| `CheckProperties.IncludesExamples` | pg-data-validator.py:132-142 | `[(1,"a"),(1,"a")]` is included in `[(1,"a")]`; `[(1,"a"),(2,"b")]` is not, with missing `{(2,"b")}` |
| `CheckProperties.CountUnsupportedIgnoresDatabase` | pg-data-validator.py:99-102 | an unknown operator yields `false` and no query, the same on every database |
| `CheckProperties.CountExamples` | pg-data-validator.py:104-113 | a result of 5 checked `>= 3` passes; an empty result fails |
| `CheckProperties.TableExistsExample` | pg-data-validator.py:80-88 | requiring `orders`, `users` where only `orders` exists reports `["users"]` missing and fails |
| `CheckProperties.CountOrderingAgainstNull` | pg-data-validator.py:111 | an ordering operator against a missing `value` (`None`) fails on every result, because the comparison raises TypeError |
| `CheckProperties.CountNotEqual` | pg-data-validator.py:15-16 | on a non-empty result `!=` gives the opposite verdict of `=` |
| `Dispatcher.SchemaOf` | pg-data-validator.py:177 | the connection's `schema` setting when the key is present, whatever it holds; `"public"` exactly when the key is absent or holds `"public"` |
| `Dispatcher.StepOf` | pg-data-validator.py:173-194 | one check crashes iff it is a PRINTER without `query`; otherwise it produces an event iff its type is one of the four, and an unknown type sends nothing |
| `Dispatcher.StepOfRoutes` | pg-data-validator.py:174-194 | PRINTER, TABLE_EXISTS, COUNT_CHECK and INCLUDES_CHECK each run their own executor with the check's own fields (`query`, `required_tables` with the connection's schema, `query`/`value`/`operator`, `query`/`values`) on the connection's history, and report its result under their own kind |
| `Dispatcher.Dispatch` | pg-data-validator.py:172-194 | at most one event per check; the connection's history grows from the queries sent before by at most one query per check |
| `Dispatcher.DispatchCrashedPrefix` | pg-data-validator.py:172-175 | after a KeyError the remaining checks are not run |
| `Dispatcher.Validate` | pg-data-validator.py:172-194 | the dispatch loop's events, crash flag and the cursor's query history are those of `Dispatch` on the validation list, started from the cursor's history |
| `DispatchProperties.DispatchAppend` | pg-data-validator.py:172-194 | checks run in list order on one connection; after a prefix that did not crash, the rest produces what it produces on its own on a connection that has already carried the prefix's queries |
| `DispatchProperties.DispatchHistoryFree` | pg-data-validator.py:172-194 | on a database whose answers ignore earlier queries, a list's events and crash do not depend on the connection's history, so checks are then independent of one another |
| `DispatchProperties.DispatchAfterFailure` | pg-data-validator.py:170-194 | on a database that aborts the transaction after a failed statement, once a query has failed every check of the list reports a failure |
| `DispatchProperties.DispatchFailureSpoilsRest` | pg-data-validator.py:117-119 | a failed query in a prefix, with no rollback, leaves the prefix's events unchanged and makes every later check of the list fail |
| `DispatchProperties.DispatchSkipsUnknown` | pg-data-validator.py:173-194 | inserting a check of unknown type anywhere changes nothing |
| `DispatchProperties.DispatchCompletes` | pg-data-validator.py:172-194 | the loop is cut short iff some PRINTER lacks `query`; otherwise every recognised check leaves exactly one event |
| `DispatchProperties.DispatchTableExists` | pg-data-validator.py:176-179 | TABLE_EXISTS queries the catalog of the connection's `schema` setting, or of `"public"` when it is absent, and reports that verdict |
| `DispatchProperties.DispatchCountUnsupported` | pg-data-validator.py:180-187 | a COUNT_CHECK with an unknown operator reports `false` and sends no query |
| `Runner.Run` | pg-data-validator.py:166-197 | at most one report per database, and one for each when the run completes |
| `Runner.RunAll` | pg-data-validator.py:166-197 | the loop over databases, each on a fresh cursor, yields `Run`'s reports and ending |
| `Runner.RunStopped` | pg-data-validator.py:166-170 | once the run has stopped, later databases are never reached |
| `Runner.ConnectionFailureEndsRun` | pg-data-validator.py:44-46 | a failed connection ends the run with `Exited`; no later database is processed |
| `Runner.RunReportsEach` | pg-data-validator.py:166-194 | in a completed run, database `i` reports exactly its own checks' events on its own connection |

## Left out

- The oracle may be any database. The PostgreSQL rule that a failed statement aborts the transaction is the hypothesis `AbortsAfterFailure` of the lemmas that use it, not part of every oracle.
- The `SET search_path` statement that connection setup sends on the same connection is not in the cursor's history. The oracle that the `Connector` returns accounts for it.
- Connection setup (`create_connection`): the psycopg connect call and `SET search_path` are I/O. They become the `Connector` oracle. Only its failure (`sys.exit(1)`) is kept, as `Exited`.
- Argument parsing and configuration loading are left out. The model takes the parsed `databases` list with the `.get` defaults applied. A missing `connection` key (a `KeyError`) is not modelled.
- The `with` blocks that close the cursor and the connection are not modelled. They only release resources.
- Logging is left out: line formats, message texts and the `description` fields. Events record the verdicts and PRINTER's listings instead.
- Values are `None`, integers and strings only. Floats, `Decimal`, booleans, dates and Python's mixed int/float comparison are not modelled.
- The SQL text of the catalog query is abstracted as the `BaseTables(schema)` query.
- A configuration field of the wrong JSON type is not modelled. Examples: a `null` list, a scalar among `values`, or `"query": null` for PRINTER, which the model treats like a missing key.
- An absent `query` for COUNT_CHECK and INCLUDES_CHECK: the model assumes `cursor.execute(None)` raises in the driver before reaching the database.
- `Executors.ZipDict`: the key order of the logged dictionaries is not modelled, because Dafny maps are unordered.
