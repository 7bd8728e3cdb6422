/** The database as the engine sees it: a cursor that executes a query and
    hands back the fetched rows or fails.  What the database answers is an
    oracle, a total function of the queries already sent on the connection and
    the query at hand; the cursor records every query it sends. */
module Queries {
  import opened Values

  /** A query sent through the cursor: a configured SQL text, or the catalog
      lookup of base-table names in a schema that TABLE_EXISTS issues.  The
      schema is whatever value the connection settings hold. */
  datatype Query = Sql(text: string) | BaseTables(schema: Value)

  /** What executing and fetching yields: the column names of the result and
      its rows, or a failure (any exception raised by the driver). */
  datatype QueryResult = Rows(columns: seq<string>, rows: seq<Row>) | Failed

  /** The database behind one connection: its answer to a query, given the
      queries sent on that connection before it, oldest first.  The connection
      is opened without autocommit and the program never rolls back, so one
      failed statement leaves the transaction aborted and the answers that
      follow depend on that history. */
  type Oracle = (seq<Query>, Query) -> QueryResult

  /** Some query of `history` failed when it was sent. */
  ghost predicate Poisoned(db: Oracle, history: seq<Query>) {
    exists i :: 0 <= i < |history| && db(history[..i], history[i]).Failed?
  }

  /** PostgreSQL's aborted transaction: after a failed statement every later
      statement on the connection fails too. */
  ghost predicate AbortsAfterFailure(db: Oracle) {
    forall history, q :: Poisoned(db, history) ==> db(history, q).Failed?
  }

  /** A database that answers each query the same whatever was sent before. */
  ghost predicate HistoryFree(db: Oracle) {
    forall h1, h2, q :: db(h1, q) == db(h2, q)
  }

  /** A failed query poisons the history it ends, and every extension of it. */
  lemma PoisonedExtends(db: Oracle, history: seq<Query>, more: seq<Query>)
    requires Poisoned(db, history)
    ensures Poisoned(db, history + more)
  {
    var i :| 0 <= i < |history| && db(history[..i], history[i]).Failed?;
    assert (history + more)[..i] == history[..i];
    assert (history + more)[i] == history[i];
  }

  class Cursor {
    const db: Oracle
    /** The queries executed so far, oldest first. */
    var issued: seq<Query>

    constructor (db: Oracle)
      ensures this.db == db && issued == []
    {
      this.db := db;
      issued := [];
    }

    /** `cursor.execute` followed by a fetch. */
    method Execute(q: Query) returns (r: QueryResult)
      modifies this
      ensures r == db(old(issued), q)
      ensures issued == old(issued) + [q]
    {
      r := db(issued, q);
      issued := issued + [q];
    }
  }
}
