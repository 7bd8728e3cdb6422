/** The four check executors.  Each is a function of the database oracle, the
    queries `sent` before it on the connection and the check's parameters that
    gives what the executor reports together with the queries it sent; a method
    per executor runs it against a live cursor. */
module Executors {
  import opened Wrappers
  import opened Values
  import opened Operators
  import opened Queries

  /** What one executor reports, and the queries it sent, in order. */
  datatype Exec<T> = Exec(out: T, issued: seq<Query>)

  // ---------------------------------------------------------------- PRINTER

  /** What PRINTER logs on success: the row count, then one column-name to
      value mapping per row. */
  datatype Listing = Listing(count: nat, records: seq<map<string, Value>>)

  function Min(a: nat, b: nat): nat {
    if a < b then a else b
  }

  /** Column `i` is the last of the first `n` columns to carry its name. */
  predicate LastOccurrence(columns: seq<string>, n: nat, i: nat)
    requires i < n <= |columns|
  {
    forall j :: i < j < n ==> columns[j] != columns[i]
  }

  /** Python's `dict(zip(columns, row))`: pairs up to the shorter of the two,
      inserted left to right, so that a later column overwrites an earlier one
      of the same name. */
  function ZipDict(columns: seq<string>, row: Row): (d: map<string, Value>)
    ensures forall k :: k in d ==> k in columns
    ensures forall k :: k in d ==> d[k] in row
    decreases |columns|
  {
    var n := Min(|columns|, |row|);
    if n == 0 then map[]
    else
      var d' := ZipDict(columns[..n - 1], row[..n - 1]);
      assert forall k :: k in columns[..n - 1] ==> k in columns;
      assert forall v :: v in row[..n - 1] ==> v in row;
      d'[columns[n - 1] := row[n - 1]]
  }

  /** The keys of a row's mapping are exactly the names of its zipped columns. */
  lemma {:induction false} ZipDictKeys(columns: seq<string>, row: Row)
    ensures forall k :: k in ZipDict(columns, row) <==> exists i :: 0 <= i < Min(|columns|, |row|) && columns[i] == k
    decreases |columns|
  {
    var n := Min(|columns|, |row|);
    if n > 0 {
      var c, r := columns[..n - 1], row[..n - 1];
      assert Min(|c|, |r|) == n - 1;
      ZipDictKeys(c, r);
      assert ZipDict(columns, row) == ZipDict(c, r)[columns[n - 1] := row[n - 1]];
      forall k | k in ZipDict(columns, row)
        ensures exists i :: 0 <= i < n && columns[i] == k
      {
        if k != columns[n - 1] {
          var i :| 0 <= i < n - 1 && c[i] == k;
          assert columns[i] == k;
        }
      }
      forall k | exists i :: 0 <= i < n && columns[i] == k
        ensures k in ZipDict(columns, row)
      {
        var i :| 0 <= i < n && columns[i] == k;
        if i < n - 1 {
          assert c[i] == k;
        }
      }
    }
  }

  /** A name repeated among the columns is bound to the value of its last column. */
  lemma {:induction false} ZipDictLastWins(columns: seq<string>, row: Row, i: nat)
    requires i < Min(|columns|, |row|)
    requires LastOccurrence(columns, Min(|columns|, |row|), i)
    ensures columns[i] in ZipDict(columns, row) && ZipDict(columns, row)[columns[i]] == row[i]
    decreases |columns|
  {
    var n := Min(|columns|, |row|);
    if i < n - 1 {
      var c, r := columns[..n - 1], row[..n - 1];
      assert Min(|c|, |r|) == n - 1;
      assert columns[n - 1] != columns[i];
      assert LastOccurrence(c, n - 1, i);
      ZipDictLastWins(c, r, i);
    }
  }

  /** The per-row logging loop of PRINTER: one mapping per fetched row. */
  method Render(columns: seq<string>, rows: seq<Row>) returns (records: seq<map<string, Value>>)
    ensures |records| == |rows|
    ensures forall i :: 0 <= i < |rows| ==> records[i] == ZipDict(columns, rows[i])
  {
    records := [];
    var i := 0;
    while i < |rows|
      invariant 0 <= i <= |rows|
      invariant |records| == i
      invariant forall k :: 0 <= k < i ==> records[k] == ZipDict(columns, rows[k])
    {
      records := records + [ZipDict(columns, rows[i])];
      i := i + 1;
    }
  }

  /** PRINTER runs its query and reports the listing, or nothing when the query
      fails.  It has no verdict. */
  function Printer(db: Oracle, sent: seq<Query>, query: string): (e: Exec<Option<Listing>>)
    ensures e.issued == [Sql(query)]
    ensures e.out.None? <==> db(sent, Sql(query)).Failed?
    ensures e.out.Some? ==> e.out.value.count == |db(sent, Sql(query)).rows| == |e.out.value.records|
    ensures e.out.Some? ==> forall i :: 0 <= i < e.out.value.count ==>
              e.out.value.records[i] == ZipDict(db(sent, Sql(query)).columns, db(sent, Sql(query)).rows[i])
  {
    match db(sent, Sql(query))
    case Failed => Exec(None, [Sql(query)])
    case Rows(columns, rows) =>
      var records := seq(|rows|, i requires 0 <= i < |rows| => ZipDict(columns, rows[i]));
      Exec(Some(Listing(|rows|, records)), [Sql(query)])
  }

  method RunPrinter(cur: Cursor, query: string) returns (listing: Option<Listing>)
    modifies cur
    ensures listing == Printer(cur.db, old(cur.issued), query).out
    ensures cur.issued == old(cur.issued) + Printer(cur.db, old(cur.issued), query).issued
  {
    var r := cur.Execute(Sql(query));
    match r
    case Failed =>
      listing := None;
    case Rows(columns, rows) =>
      var records := Render(columns, rows);
      assert records == seq(|rows|, i requires 0 <= i < |rows| => ZipDict(columns, rows[i]));
      listing := Some(Listing(|rows|, records));
  }

  // ----------------------------------------------------------- TABLE_EXISTS

  /** The set of first columns of the catalog rows; `None` when some row has no
      column at all (indexing it raises). */
  function ExistingNames(rows: seq<Row>): (names: Option<set<Value>>)
    ensures names.None? <==> exists i :: 0 <= i < |rows| && rows[i] == []
    ensures names.Some? ==> forall v :: v in names.value <==> exists i :: 0 <= i < |rows| && rows[i][0] == v
  {
    if exists i :: 0 <= i < |rows| && rows[i] == [] then None
    else Some(set i | 0 <= i < |rows| :: rows[i][0])
  }

  /** The required tables absent from `existing`, keeping the order and the
      repetitions of `required`. */
  function MissingTables(required: seq<string>, existing: set<Value>): (missing: seq<string>)
    ensures |missing| <= |required|
  {
    if required == [] then []
    else
      var rest := MissingTables(required[1..], existing);
      if Str(required[0]) in existing then rest else [required[0]] + rest
  }

  /** A table is reported missing exactly when it is required and absent, and
      as many times as it is required. */
  lemma {:induction false} MissingTablesCount(required: seq<string>, existing: set<Value>, t: string)
    ensures multiset(MissingTables(required, existing))[t] ==
              if Str(t) in existing then 0 else multiset(required)[t]
    ensures t in MissingTables(required, existing) <==> t in required && Str(t) !in existing
  {
    if required != [] {
      MissingTablesCount(required[1..], existing, t);
      assert required == [required[0]] + required[1..];
    }
  }

  /** Filtering distributes over concatenation, so `missing` keeps the relative
      order of `required`. */
  lemma {:induction false} MissingTablesAppend(a: seq<string>, b: seq<string>, existing: set<Value>)
    ensures MissingTables(a + b, existing) == MissingTables(a, existing) + MissingTables(b, existing)
    decreases |a|
  {
    if a != [] {
      assert (a + b)[0] == a[0] && (a + b)[1..] == a[1..] + b;
      MissingTablesAppend(a[1..], b, existing);
      if Str(a[0]) !in existing {
        assert [a[0]] + MissingTables(a[1..], existing) + MissingTables(b, existing)
            == [a[0]] + (MissingTables(a[1..], existing) + MissingTables(b, existing));
      }
    } else {
      assert a + b == b;
    }
  }

  /** The TABLE_EXISTS verdict on the catalog query's result. */
  function TableExistsVerdict(required: seq<string>, r: QueryResult): (ok: bool)
    ensures ok <==> r.Rows? && ExistingNames(r.rows).Some? &&
                    forall t :: t in required ==> Str(t) in ExistingNames(r.rows).value
  {
    match r
    case Failed => false
    case Rows(_, rows) =>
      match ExistingNames(rows)
      case None => false
      case Some(existing) =>
        var missing := MissingTables(required, existing);
        assert missing == [] <==> forall t :: t in required ==> Str(t) in existing by {
          forall t {
            MissingTablesCount(required, existing, t);
          }
        }
        missing == []
  }

  /** TABLE_EXISTS always issues the one catalog query for `schema`. */
  function TableExists(db: Oracle, sent: seq<Query>, schema: Value, required: seq<string>): (e: Exec<bool>)
    ensures e.issued == [BaseTables(schema)]
    ensures e.out == TableExistsVerdict(required, db(sent, BaseTables(schema)))
  {
    Exec(TableExistsVerdict(required, db(sent, BaseTables(schema))), [BaseTables(schema)])
  }

  /** With nothing required, the check passes exactly when the catalog query
      succeeds (and every row it returns has a column). */
  lemma TableExistsEmpty(r: QueryResult)
    ensures TableExistsVerdict([], r) <==> r.Rows? && forall i :: 0 <= i < |r.rows| ==> r.rows[i] != []
  {
  }

  method RunTableExists(cur: Cursor, required: seq<string>, schema: Value) returns (ok: bool)
    modifies cur
    ensures ok == TableExists(cur.db, old(cur.issued), schema, required).out
    ensures cur.issued == old(cur.issued) + TableExists(cur.db, old(cur.issued), schema, required).issued
  {
    var r := cur.Execute(BaseTables(schema));
    match r
    case Failed =>
      ok := false;
    case Rows(_, rows) =>
      var existing := ExistingNames(rows);
      match existing
      case None =>
        ok := false;
      case Some(names) =>
        var missing := MissingTables(required, names);
        ok := missing == [];
  }

  // ------------------------------------------------------------ COUNT_CHECK

  /** The COUNT_CHECK verdict once the operator is known: the first column of
      the first row, compared with the configured value. */
  function CountVerdict(op: Op, r: QueryResult, value: Value): (ok: bool)
    ensures r.Failed? || r.rows == [] ==> !ok
    ensures ok ==> r.Rows? && r.rows != [] && r.rows[0] != []
    ensures r.Rows? && r.rows != [] && r.rows[0] != [] && r.rows[0][0].Int? && value.Int? ==>
              (ok <==> Eval(op, r.rows[0][0].i, value.i))
    ensures op == Eq ==> (ok <==> r.Rows? && r.rows != [] && r.rows[0] != [] && r.rows[0][0] == value)
    ensures r.Rows? && r.rows != [] && r.rows[0] != [] ==> (ok <==> Compare(op, r.rows[0][0], value) == Some(true))
    ensures r.Rows? && r.rows != [] && r.rows[0] != [] && Compare(op, r.rows[0][0], value).None? ==> !ok
  {
    match r
    case Failed => false
    case Rows(_, rows) =>
      if rows == [] || rows[0] == [] then false
      else Compare(op, rows[0][0], value).GetOr(false)
  }

  /** The operator named in the configuration, if the registry knows it. */
  function ResolveOperator(operator: Option<string>): (r: Option<Op>)
    ensures r.Some? <==> operator.Some? && operator.value in Symbols
    ensures r.Some? ==> Symbol(r.value) == operator.value
  {
    if operator.Some? then Resolve(operator.value) else None
  }

  /** COUNT_CHECK: an unknown operator fails before anything is executed; a
      missing query fails in the driver before reaching the database. */
  function CountCheck(db: Oracle, sent: seq<Query>, query: Option<string>, value: Value, operator: Option<string>): (e: Exec<bool>)
    ensures ResolveOperator(operator).None? || query.None? ==> e == Exec(false, [])
    ensures ResolveOperator(operator).Some? && query.Some? ==>
              e.issued == [Sql(query.value)] &&
              e.out == CountVerdict(ResolveOperator(operator).value, db(sent, Sql(query.value)), value)
  {
    match ResolveOperator(operator)
    case None => Exec(false, [])
    case Some(op) =>
      if query.None? then Exec(false, [])
      else Exec(CountVerdict(op, db(sent, Sql(query.value)), value), [Sql(query.value)])
  }

  method RunCountCheck(cur: Cursor, query: Option<string>, value: Value, operator: Option<string>) returns (ok: bool)
    modifies cur
    ensures ok == CountCheck(cur.db, old(cur.issued), query, value, operator).out
    ensures cur.issued == old(cur.issued) + CountCheck(cur.db, old(cur.issued), query, value, operator).issued
  {
    var op := ResolveOperator(operator);
    if op.None? {
      return false;
    }
    if query.None? {
      return false;
    }
    var r := cur.Execute(Sql(query.value));
    ok := CountVerdict(op.value, r, value);
  }

  // --------------------------------------------------------- INCLUDES_CHECK

  /** The elements of a sequence, as Python's set comprehension builds them. */
  function Elems<T>(s: seq<T>): set<T> {
    set x | x in s
  }

  /** The expected tuples that no actual row matches. */
  function MissingRows(expected: seq<Row>, actual: seq<Row>): (missing: set<Row>)
    ensures forall e :: e in missing <==> e in expected && e !in actual
  {
    Elems(expected) - Elems(actual)
  }

  /** The INCLUDES_CHECK verdict: every expected tuple occurs among the rows. */
  function IncludesVerdict(expected: seq<Row>, r: QueryResult): (ok: bool)
    ensures ok <==> r.Rows? && forall e :: e in expected ==> e in r.rows
  {
    match r
    case Failed => false
    case Rows(_, actual) =>
      var missing := MissingRows(expected, actual);
      assert missing == {} <==> forall e :: e in expected ==> e in actual by {
        if missing != {} {
          var e :| e in missing;
        }
      }
      missing == {}
  }

  function IncludesCheck(db: Oracle, sent: seq<Query>, query: Option<string>, expected: seq<Row>): (e: Exec<bool>)
    ensures query.None? ==> e == Exec(false, [])
    ensures query.Some? ==> e.issued == [Sql(query.value)] &&
                            e.out == IncludesVerdict(expected, db(sent, Sql(query.value)))
  {
    if query.None? then Exec(false, [])
    else Exec(IncludesVerdict(expected, db(sent, Sql(query.value))), [Sql(query.value)])
  }

  method RunIncludesCheck(cur: Cursor, query: Option<string>, expected: seq<Row>) returns (ok: bool)
    modifies cur
    ensures ok == IncludesCheck(cur.db, old(cur.issued), query, expected).out
    ensures cur.issued == old(cur.issued) + IncludesCheck(cur.db, old(cur.issued), query, expected).issued
  {
    if query.None? {
      return false;
    }
    var r := cur.Execute(Sql(query.value));
    match r
    case Failed =>
      ok := false;
    case Rows(_, actual) =>
      var missing := MissingRows(expected, actual);
      ok := missing == {};
  }
}
