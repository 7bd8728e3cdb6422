/** The validation dispatcher: the checks configured for one database run in
    list order against one cursor, each routed on its `type`. */
module Dispatcher {
  import opened Wrappers
  import opened Values
  import opened Queries
  import opened Executors

  /** One entry of a database's `validation` list.  Every field but `type`
      holds what `.get` reads, with the source's defaults: no query and no
      operator are `None`, no value is `Null`, no tables and no values are
      empty lists. */
  datatype Validator = Validator(
    vtype: Option<string>,
    query: Option<string>,
    requiredTables: seq<string>,
    value: Value,
    operator: Option<string>,
    values: seq<Row>)

  /** The connection settings of a database entry, as a JSON object. */
  type ConnConfig = map<string, Value>

  /** `conn_config.get("schema", "public")`: the configured value when the key
      is present, whatever it holds, and `"public"` only when it is absent. */
  function SchemaOf(conn: ConnConfig): (schema: Value)
    ensures "schema" in conn ==> schema == conn["schema"]
    ensures schema == Str("public") <==> "schema" !in conn || conn["schema"] == Str("public")
  {
    if "schema" in conn then conn["schema"] else Str("public")
  }

  /** What the dispatcher leaves behind per check: PRINTER's listing (or its
      failure), or a check kind with its verdict. */
  datatype Event = Printed(listing: Option<Listing>) | Checked(kind: string, passed: bool)

  /** One check: the event it produced, if any, and the queries it sent; or a
      KeyError that escapes the loop. */
  datatype Step = Done(event: Option<Event>, issued: seq<Query>) | Crash

  predicate Known(v: Validator) {
    v.vtype == Some("PRINTER") || v.vtype == Some("TABLE_EXISTS") ||
    v.vtype == Some("COUNT_CHECK") || v.vtype == Some("INCLUDES_CHECK")
  }

  /** PRINTER reads its query with `validator["query"]`, outside any `try`. */
  predicate CrashesDispatch(v: Validator) {
    v.vtype == Some("PRINTER") && v.query.None?
  }

  /** One check, run after the queries `sent` on the connection. */
  function StepOf(db: Oracle, conn: ConnConfig, sent: seq<Query>, v: Validator): (s: Step)
    ensures s.Crash? <==> CrashesDispatch(v)
    ensures s.Done? ==> (s.event.Some? <==> Known(v))
    ensures !Known(v) ==> s == Done(None, [])
  {
    if v.vtype == Some("PRINTER") then
      if v.query.None? then Crash
      else
        var e := Printer(db, sent, v.query.value);
        Done(Some(Printed(e.out)), e.issued)
    else if v.vtype == Some("TABLE_EXISTS") then
      var e := TableExists(db, sent, SchemaOf(conn), v.requiredTables);
      Done(Some(Checked("TABLE_EXISTS", e.out)), e.issued)
    else if v.vtype == Some("COUNT_CHECK") then
      var e := CountCheck(db, sent, v.query, v.value, v.operator);
      Done(Some(Checked("COUNT_CHECK", e.out)), e.issued)
    else if v.vtype == Some("INCLUDES_CHECK") then
      var e := IncludesCheck(db, sent, v.query, v.values);
      Done(Some(Checked("INCLUDES_CHECK", e.out)), e.issued)
    else Done(None, [])
  }

  /** Each recognised type runs its own executor on the check's own fields,
      after the queries already sent. */
  lemma StepOfRoutes(db: Oracle, conn: ConnConfig, sent: seq<Query>, v: Validator)
    ensures v.vtype == Some("PRINTER") && v.query.Some? ==>
              var e := Printer(db, sent, v.query.value);
              StepOf(db, conn, sent, v) == Done(Some(Printed(e.out)), e.issued)
    ensures v.vtype == Some("TABLE_EXISTS") ==>
              var e := TableExists(db, sent, SchemaOf(conn), v.requiredTables);
              StepOf(db, conn, sent, v) == Done(Some(Checked("TABLE_EXISTS", e.out)), e.issued)
    ensures v.vtype == Some("COUNT_CHECK") ==>
              var e := CountCheck(db, sent, v.query, v.value, v.operator);
              StepOf(db, conn, sent, v) == Done(Some(Checked("COUNT_CHECK", e.out)), e.issued)
    ensures v.vtype == Some("INCLUDES_CHECK") ==>
              var e := IncludesCheck(db, sent, v.query, v.values);
              StepOf(db, conn, sent, v) == Done(Some(Checked("INCLUDES_CHECK", e.out)), e.issued)
  {
  }

  function EventList(ev: Option<Event>): seq<Event> {
    if ev.Some? then [ev.value] else []
  }

  /** The events of a run of the loop, every query sent on the connection so
      far (those before the loop first), and whether it was cut short by a
      KeyError. */
  datatype Trace = Trace(events: seq<Event>, history: seq<Query>, crashed: bool)

  /** The dispatch loop as a function: the checks in list order on one
      connection that has already carried the queries `sent`, each appending
      its event and its queries, until one crashes. */
  function Dispatch(db: Oracle, conn: ConnConfig, sent: seq<Query>, vs: seq<Validator>): (t: Trace)
    ensures |t.events| <= |vs|
    ensures |sent| <= |t.history| <= |sent| + |vs| && t.history[..|sent|] == sent
    decreases |vs|
  {
    if vs == [] then Trace([], sent, false)
    else
      var t := Dispatch(db, conn, sent, vs[..|vs| - 1]);
      if t.crashed then t
      else
        match StepOf(db, conn, t.history, vs[|vs| - 1])
        case Crash => Trace(t.events, t.history, true)
        case Done(ev, q) => Trace(t.events + EventList(ev), t.history + q, false)
  }

  /** Once the loop has crashed, the remaining checks change nothing. */
  lemma {:induction false} DispatchCrashedPrefix(db: Oracle, conn: ConnConfig, sent: seq<Query>, vs: seq<Validator>, i: nat)
    requires i <= |vs|
    requires Dispatch(db, conn, sent, vs[..i]).crashed
    ensures Dispatch(db, conn, sent, vs) == Dispatch(db, conn, sent, vs[..i])
    decreases |vs| - i
  {
    if i < |vs| {
      assert vs[..|vs| - 1][..i] == vs[..i];
      DispatchCrashedPrefix(db, conn, sent, vs[..|vs| - 1], i);
    } else {
      assert vs[..i] == vs;
    }
  }

  /** `for validator in validations`, with one executor per recognised type. */
  method Validate(cur: Cursor, conn: ConnConfig, validations: seq<Validator>) returns (events: seq<Event>, crashed: bool)
    modifies cur
    ensures events == Dispatch(cur.db, conn, old(cur.issued), validations).events
    ensures crashed == Dispatch(cur.db, conn, old(cur.issued), validations).crashed
    ensures cur.issued == Dispatch(cur.db, conn, old(cur.issued), validations).history
  {
    events, crashed := [], false;
    var i := 0;
    while i < |validations|
      invariant 0 <= i <= |validations|
      invariant !crashed
      invariant events == Dispatch(cur.db, conn, old(cur.issued), validations[..i]).events
      invariant !Dispatch(cur.db, conn, old(cur.issued), validations[..i]).crashed
      invariant cur.issued == Dispatch(cur.db, conn, old(cur.issued), validations[..i]).history
    {
      var v := validations[i];
      assert validations[..i + 1][..i] == validations[..i];
      if v.vtype == Some("PRINTER") {
        if v.query.None? {
          crashed := true;
          DispatchCrashedPrefix(cur.db, conn, old(cur.issued), validations, i + 1);
          return;
        }
        var listing := RunPrinter(cur, v.query.value);
        events := events + [Printed(listing)];
      } else if v.vtype == Some("TABLE_EXISTS") {
        var schema := SchemaOf(conn);
        var ok := RunTableExists(cur, v.requiredTables, schema);
        events := events + [Checked("TABLE_EXISTS", ok)];
      } else if v.vtype == Some("COUNT_CHECK") {
        var ok := RunCountCheck(cur, v.query, v.value, v.operator);
        events := events + [Checked("COUNT_CHECK", ok)];
      } else if v.vtype == Some("INCLUDES_CHECK") {
        var ok := RunIncludesCheck(cur, v.query, v.values);
        events := events + [Checked("INCLUDES_CHECK", ok)];
      }
      i := i + 1;
    }
    assert validations[..i] == validations;
  }
}

/** What the dispatch loop guarantees across a whole validation list. */
module DispatchProperties {
  import opened Wrappers
  import Operators
  import opened Values
  import opened Queries
  import opened Executors
  import opened Dispatcher

  /** The trace of `t` followed by a run that continued from it and gave `u`. */
  function Join(t: Trace, u: Trace): Trace {
    Trace(t.events + u.events, u.history, u.crashed)
  }

  /** Checks run strictly in list order on one connection: after a prefix that
      did not crash, the rest of the list produces what it produces on its own
      on a connection that has already carried the prefix's queries. */
  lemma {:induction false} DispatchAppend(db: Oracle, conn: ConnConfig, sent: seq<Query>, a: seq<Validator>, b: seq<Validator>)
    ensures var ta := Dispatch(db, conn, sent, a);
            Dispatch(db, conn, sent, a + b) ==
              if ta.crashed then ta else Join(ta, Dispatch(db, conn, ta.history, b))
    decreases |b|
  {
    var ta := Dispatch(db, conn, sent, a);
    if b == [] {
      assert a + b == a;
      if !ta.crashed {
        assert ta.events + [] == ta.events;
      }
    } else {
      var b', x := b[..|b| - 1], b[|b| - 1];
      assert (a + b)[..|a + b| - 1] == a + b';
      assert (a + b)[|a + b| - 1] == x;
      DispatchAppend(db, conn, sent, a, b');
      if !ta.crashed {
        var tb' := Dispatch(db, conn, ta.history, b');
        if !tb'.crashed {
          match StepOf(db, conn, tb'.history, x)
          case Crash =>
          case Done(ev, q) =>
            assert ta.events + tb'.events + EventList(ev) == ta.events + (tb'.events + EventList(ev));
        }
      }
    }
  }

  /** On a database whose answers do not depend on what was sent before, the
      events of a list do not depend on the connection's history either; with
      `DispatchAppend` this makes the checks independent of one another. */
  lemma {:induction false} DispatchHistoryFree(db: Oracle, conn: ConnConfig, h1: seq<Query>, h2: seq<Query>, vs: seq<Validator>)
    requires HistoryFree(db)
    ensures Dispatch(db, conn, h1, vs).events == Dispatch(db, conn, h2, vs).events
    ensures Dispatch(db, conn, h1, vs).crashed == Dispatch(db, conn, h2, vs).crashed
    decreases |vs|
  {
    if vs != [] {
      var p, v := vs[..|vs| - 1], vs[|vs| - 1];
      DispatchHistoryFree(db, conn, h1, h2, p);
      var t1, t2 := Dispatch(db, conn, h1, p), Dispatch(db, conn, h2, p);
      var s1, s2 := StepOf(db, conn, t1.history, v), StepOf(db, conn, t2.history, v);
      assert s1.Crash? == s2.Crash?;
      if s1.Done? {
        if v.query.Some? {
          assert db(t1.history, Sql(v.query.value)) == db(t2.history, Sql(v.query.value));
        }
        assert db(t1.history, BaseTables(SchemaOf(conn))) == db(t2.history, BaseTables(SchemaOf(conn)));
        assert s1.event == s2.event;
      }
    }
  }

  /** A check is spoilt when it reports a failure: PRINTER without a listing,
      any other kind with `false`. */
  predicate Spoilt(e: Event) {
    match e
    case Printed(listing) => listing.None?
    case Checked(_, passed) => !passed
  }

  /** On a connection whose transaction a failed query has aborted, every
      check of the list fails, whatever its own query. */
  lemma {:induction false} DispatchAfterFailure(db: Oracle, conn: ConnConfig, sent: seq<Query>, vs: seq<Validator>)
    requires AbortsAfterFailure(db) && Poisoned(db, sent)
    ensures forall e :: e in Dispatch(db, conn, sent, vs).events ==> Spoilt(e)
    decreases |vs|
  {
    if vs != [] {
      var p, v := vs[..|vs| - 1], vs[|vs| - 1];
      DispatchAfterFailure(db, conn, sent, p);
      var t := Dispatch(db, conn, sent, p);
      PoisonedExtends(db, sent, t.history[|sent|..]);
      assert sent + t.history[|sent|..] == t.history;
      if !t.crashed && !CrashesDispatch(v) {
        if v.query.Some? {
          assert db(t.history, Sql(v.query.value)).Failed?;
        }
        assert db(t.history, BaseTables(SchemaOf(conn))).Failed?;
      }
    }
  }

  /** The program as written loses per-check isolation: once a query of the
      list fails on a database that aborts its transaction, every later check
      of the list fails as well. */
  lemma DispatchFailureSpoilsRest(db: Oracle, conn: ConnConfig, a: seq<Validator>, b: seq<Validator>)
    requires AbortsAfterFailure(db)
    requires !Dispatch(db, conn, [], a).crashed
    requires Poisoned(db, Dispatch(db, conn, [], a).history)
    ensures var ta := Dispatch(db, conn, [], a);
            var t := Dispatch(db, conn, [], a + b);
            |ta.events| <= |t.events| && t.events[..|ta.events|] == ta.events &&
            forall e :: e in t.events[|ta.events|..] ==> Spoilt(e)
  {
    var ta := Dispatch(db, conn, [], a);
    DispatchAppend(db, conn, [], a, b);
    DispatchAfterFailure(db, conn, ta.history, b);
    var t := Dispatch(db, conn, [], a + b);
    assert t.events[|ta.events|..] == Dispatch(db, conn, ta.history, b).events;
  }

  /** A check whose `type` is not one of the four is skipped silently: it
      leaves no event, sends no query and does not stop the loop. */
  lemma DispatchSkipsUnknown(db: Oracle, conn: ConnConfig, sent: seq<Query>, a: seq<Validator>, v: Validator, b: seq<Validator>)
    requires !Known(v)
    ensures Dispatch(db, conn, sent, a + [v] + b) == Dispatch(db, conn, sent, a + b)
  {
    DispatchAppend(db, conn, sent, a, [v]);
    DispatchAppend(db, conn, sent, a + [v], b);
    DispatchAppend(db, conn, sent, a, b);
    assert [v][..0] == [];
    var ta := Dispatch(db, conn, sent, a);
    if !ta.crashed {
      assert ta.events + [] == ta.events && ta.history + [] == ta.history;
    }
  }

  /** How many checks of a list have a recognised type. */
  function CountKnown(vs: seq<Validator>): nat {
    if vs == [] then 0
    else CountKnown(vs[..|vs| - 1]) + if Known(vs[|vs| - 1]) then 1 else 0
  }

  /** The loop is cut short exactly when some PRINTER lacks its query; a
      failed verdict never stops it, and when it is not cut short every
      recognised check leaves one event. */
  lemma {:induction false} DispatchCompletes(db: Oracle, conn: ConnConfig, sent: seq<Query>, vs: seq<Validator>)
    ensures Dispatch(db, conn, sent, vs).crashed <==> exists i :: 0 <= i < |vs| && CrashesDispatch(vs[i])
    ensures !Dispatch(db, conn, sent, vs).crashed ==> |Dispatch(db, conn, sent, vs).events| == CountKnown(vs)
    decreases |vs|
  {
    if vs != [] {
      var p := vs[..|vs| - 1];
      DispatchCompletes(db, conn, sent, p);
      assert forall i :: 0 <= i < |p| ==> p[i] == vs[i];
      if exists i :: 0 <= i < |vs| && CrashesDispatch(vs[i]) {
        var i :| 0 <= i < |vs| && CrashesDispatch(vs[i]);
        if i < |p| {
          assert CrashesDispatch(p[i]);
        }
      }
    }
  }

  /** A single check's trace, by kind.  TABLE_EXISTS queries the catalog of
      the connection's `schema` setting, or of `"public"` when there is none. */
  lemma DispatchTableExists(db: Oracle, conn: ConnConfig, sent: seq<Query>, v: Validator)
    requires v.vtype == Some("TABLE_EXISTS")
    ensures var schema := if "schema" in conn then conn["schema"] else Str("public");
            Dispatch(db, conn, sent, [v]) ==
              Trace([Checked("TABLE_EXISTS", TableExistsVerdict(v.requiredTables, db(sent, BaseTables(schema))))],
                    sent + [BaseTables(schema)], false)
  {
  }

  /** COUNT_CHECK with an operator the registry does not know fails and sends
      nothing to the database. */
  lemma DispatchCountUnsupported(db: Oracle, conn: ConnConfig, sent: seq<Query>, v: Validator)
    requires v.vtype == Some("COUNT_CHECK")
    requires v.operator.None? || v.operator.value !in Operators.Symbols
    ensures Dispatch(db, conn, sent, [v]) == Trace([Checked("COUNT_CHECK", false)], sent, false)
  {
  }
}
