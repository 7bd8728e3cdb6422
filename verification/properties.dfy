/** Properties of the check executors that relate several calls. */
module CheckProperties {
  import opened Wrappers
  import opened Values
  import opened Operators
  import opened Queries
  import opened Executors

  /** INCLUDES_CHECK is a set inclusion: reordering or repeating the expected
      tuples or the fetched rows does not change its verdict. */
  lemma IncludesIgnoresOrderAndRepetition(e1: seq<Row>, e2: seq<Row>, a1: seq<Row>, a2: seq<Row>, c1: seq<string>, c2: seq<string>)
    requires Elems(e1) == Elems(e2) && Elems(a1) == Elems(a2)
    ensures IncludesVerdict(e1, Rows(c1, a1)) == IncludesVerdict(e2, Rows(c2, a2))
  {
  }

  /** In particular a permutation of either list leaves the verdict alone. */
  lemma IncludesIgnoresPermutation(e1: seq<Row>, e2: seq<Row>, a1: seq<Row>, a2: seq<Row>, columns: seq<string>)
    requires multiset(e1) == multiset(e2) && multiset(a1) == multiset(a2)
    ensures IncludesVerdict(e1, Rows(columns, a1)) == IncludesVerdict(e2, Rows(columns, a2))
  {
    assert forall x :: x in e1 <==> x in multiset(e1);
    assert forall x :: x in e2 <==> x in multiset(e2);
    assert forall x :: x in a1 <==> x in multiset(a1);
    assert forall x :: x in a2 <==> x in multiset(a2);
  }

  /** Extra rows never make an INCLUDES_CHECK fail. */
  lemma IncludesSuperset(expected: seq<Row>, a1: seq<Row>, a2: seq<Row>, columns: seq<string>)
    requires Elems(a1) <= Elems(a2)
    requires IncludesVerdict(expected, Rows(columns, a1))
    ensures IncludesVerdict(expected, Rows(columns, a2))
  {
  }

  /** A failed query fails every check kind that has a verdict. */
  lemma FailedQueryFails(required: seq<string>, op: Op, value: Value, expected: seq<Row>)
    ensures !TableExistsVerdict(required, Failed)
    ensures !CountVerdict(op, Failed, value)
    ensures !IncludesVerdict(expected, Failed)
  {
  }

  /** Repeated expected tuples are looked for once: `[(1,"a"), (1,"a")]` is
      included in `[(1,"a")]`, while `[(1,"a"), (2,"b")]` is not, and the
      missing set is `{(2,"b")}`. */
  lemma IncludesExamples()
    ensures var r1, r2 := [Int(1), Str("a")], [Int(2), Str("b")];
            IncludesVerdict([r1, r1], Rows(["n", "s"], [r1])) &&
            !IncludesVerdict([r1, r2], Rows(["n", "s"], [r1])) &&
            MissingRows([r1, r2], [r1]) == {r2}
  {
    var r1, r2 := [Int(1), Str("a")], [Int(2), Str("b")];
    assert r1 != r2 by { assert r1[0] != r2[0]; }
    assert MissingRows([r1, r2], [r1]) == {r2};
  }

  /** A COUNT_CHECK whose operator is unknown reaches the same `false` on any
      database: it never consults it. */
  lemma CountUnsupportedIgnoresDatabase(db1: Oracle, db2: Oracle, h1: seq<Query>, h2: seq<Query>, query: Option<string>, value: Value, operator: Option<string>)
    requires ResolveOperator(operator).None?
    ensures CountCheck(db1, h1, query, value, operator) == CountCheck(db2, h2, query, value, operator) == Exec(false, [])
  {
  }

  /** A query returning 5, checked with `>=` against 3, passes; an empty
      result fails. */
  lemma CountExamples(columns: seq<string>)
    ensures CountVerdict(Ge, Rows(columns, [[Int(5)]]), Int(3))
    ensures !CountVerdict(Ge, Rows(columns, []), Int(3))
  {
  }

  /** Requiring `orders` and `users` where only `orders` exists reports
      `users` missing and fails. */
  lemma TableExistsExample(columns: seq<string>)
    ensures ExistingNames([[Str("orders")]]) == Some({Str("orders")})
    ensures MissingTables(["orders", "users"], {Str("orders")}) == ["users"]
    ensures !TableExistsVerdict(["orders", "users"], Rows(columns, [[Str("orders")]]))
  {
    assert Str("users") != Str("orders") by { assert "users"[0] != "orders"[0]; }
    assert ["orders", "users"][1..] == ["users"];
    var rows: seq<Row> := [[Str("orders")]];
    assert rows[0][0] == Str("orders") && rows[0] != [];
    assert ExistingNames(rows).Some?;
    assert forall v :: v in ExistingNames(rows).value <==> v == Str("orders");
    assert ExistingNames(rows).value == {Str("orders")};
  }

  /** A COUNT_CHECK with an ordering operator and no `value` (Python `None`)
      fails on every result: the comparison raises TypeError. */
  lemma CountOrderingAgainstNull(op: Op, r: QueryResult)
    requires IsOrdering(op)
    ensures !CountVerdict(op, r, Null)
  {
  }

  /** Checking with `!=` always answers the opposite of checking with `=`. */
  lemma CountNotEqual(r: QueryResult, value: Value)
    requires r.Rows? && r.rows != [] && r.rows[0] != []
    ensures CountVerdict(Ne, r, value) == !CountVerdict(Eq, r, value)
  {
  }
}
