/** The run over all configured databases: connect, run the dispatch loop on a
    fresh cursor, move on.  Connecting is an oracle that yields the database
    or fails; a failure ends the whole run with exit status 1. */
module Runner {
  import opened Wrappers
  import opened Queries
  import opened Dispatcher

  /** One entry of `databases`: its connection settings and its checks. */
  datatype Database = Database(connection: ConnConfig, validation: seq<Validator>)

  /** Opening a connection: the database behind it, or `None` when it fails. */
  type Connector = ConnConfig -> Option<Oracle>

  /** How a run ends: every database processed, the process exited because a
      connection failed, or a KeyError escaped a dispatch loop. */
  datatype RunEnd = Completed | Exited | Crashed

  /** The events of every database the run reached (the last one possibly cut
      short), and how it ended. */
  datatype RunTrace = RunTrace(reports: seq<seq<Event>>, end: RunEnd)

  /** The run as a function of the configuration and the connector. */
  function Run(dbs: seq<Database>, connect: Connector): (t: RunTrace)
    ensures |t.reports| <= |dbs|
    ensures t.end == Completed ==> |t.reports| == |dbs|
    decreases |dbs|
  {
    if dbs == [] then RunTrace([], Completed)
    else
      var t := Run(dbs[..|dbs| - 1], connect);
      var db := dbs[|dbs| - 1];
      if t.end != Completed then t
      else
        match connect(db.connection)
        case None => RunTrace(t.reports, Exited)
        case Some(oracle) =>
          var d := Dispatch(oracle, db.connection, [], db.validation);
          RunTrace(t.reports + [d.events], if d.crashed then Crashed else Completed)
  }

  /** `for db in config.get("databases", [])`, one connection and cursor each. */
  method RunAll(dbs: seq<Database>, connect: Connector) returns (reports: seq<seq<Event>>, end: RunEnd)
    ensures reports == Run(dbs, connect).reports
    ensures end == Run(dbs, connect).end
  {
    reports, end := [], Completed;
    var i := 0;
    while i < |dbs|
      invariant 0 <= i <= |dbs|
      invariant Run(dbs[..i], connect) == RunTrace(reports, Completed)
    {
      assert dbs[..i + 1][..i] == dbs[..i];
      var db := dbs[i];
      var oracle := connect(db.connection);
      if oracle.None? {
        end := Exited;
        RunStopped(dbs, connect, i + 1);
        return;
      }
      var cur := new Cursor(oracle.value);
      var events, crashed := Validate(cur, db.connection, db.validation);
      reports := reports + [events];
      if crashed {
        end := Crashed;
        RunStopped(dbs, connect, i + 1);
        return;
      }
      i := i + 1;
    }
    assert dbs[..i] == dbs;
  }

  /** Once the run has stopped, the remaining databases are never reached. */
  lemma {:induction false} RunStopped(dbs: seq<Database>, connect: Connector, i: nat)
    requires i <= |dbs|
    requires Run(dbs[..i], connect).end != Completed
    ensures Run(dbs, connect) == Run(dbs[..i], connect)
    decreases |dbs| - i
  {
    if i < |dbs| {
      assert dbs[..|dbs| - 1][..i] == dbs[..i];
      RunStopped(dbs[..|dbs| - 1], connect, i);
    } else {
      assert dbs[..i] == dbs;
    }
  }

  /** A database whose connection fails ends the run: the databases after it
      are not processed, and no report is added for it. */
  lemma ConnectionFailureEndsRun(dbs: seq<Database>, connect: Connector, i: nat)
    requires i < |dbs|
    requires Run(dbs[..i], connect).end == Completed
    requires connect(dbs[i].connection).None?
    ensures Run(dbs, connect) == RunTrace(Run(dbs[..i], connect).reports, Exited)
    ensures |Run(dbs, connect).reports| == i
  {
    assert dbs[..i + 1][..i] == dbs[..i];
    RunStopped(dbs, connect, i + 1);
  }

  /** When every connection succeeds and no dispatch loop crashes, database `i`
      reports exactly the events of its own checks on its own database. */
  lemma {:induction false} RunReportsEach(dbs: seq<Database>, connect: Connector, i: nat)
    requires i < |dbs|
    requires Run(dbs, connect).end == Completed
    ensures connect(dbs[i].connection).Some?
    ensures Run(dbs, connect).reports[i] ==
              Dispatch(connect(dbs[i].connection).value, dbs[i].connection, [], dbs[i].validation).events
    decreases |dbs|
  {
    var p := dbs[..|dbs| - 1];
    if i < |p| {
      assert p[i] == dbs[i];
      RunReportsEach(p, connect, i);
    }
  }
}
