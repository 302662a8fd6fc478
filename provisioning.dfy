/**
 * `setup`: check that the server runs, reuse or (with overwrite) drop an
 * existing table, otherwise create it and its seven properties in a fixed
 * order, stopping at the first failure. The two importers have the same
 * `setup`.
 */
module Provisioning {
  import opened Wrappers
  import opened Sky
  import opened Seqs

  /** The properties of a fresh table, in the order they are created. */
  const Schema: seq<Property> := [
    Property("username", false, String),
    Property("action", true, Factor),
    Property("language", true, Factor),
    Property("forks", true, Integer),
    Property("watchers", true, Integer),
    Property("stargazers", true, Integer),
    Property("size", true, Integer)
  ]

  /** The error `setup` returns, by the step that failed. */
  datatype SetupError = ServerNotRunning | DeleteFailed | CreateFailed | PropertyFailed(property: Property)

  /** What a run of `setup` does: its error (None on success), the tables after it, and the requests it sends. */
  datatype SetupRun = SetupRun(err: Option<SetupError>, tables: map<string, seq<Property>>, calls: seq<Request>)

  /** The requests that create `props` on `table`, in order. */
  function Creations(table: string, props: seq<Property>): (calls: seq<Request>)
    ensures |calls| == |props|
    ensures forall i :: 0 <= i < |props| ==> calls[i] == CreateProperty(table, props[i])
  {
    seq(|props|, i requires 0 <= i < |props| => CreateProperty(table, props[i]))
  }

  /**
   * How many of `props` the loop creates before the first refusal: every
   * earlier one is accepted, and the one at that index (if any) is refused.
   */
  function AcceptedCount(table: string, props: seq<Property>, refuses: Request -> bool): (k: nat)
    ensures k <= |props|
    ensures forall i :: 0 <= i < k ==> !refuses(CreateProperty(table, props[i]))
    ensures k < |props| ==> refuses(CreateProperty(table, props[k]))
    decreases |props|
  {
    if props == [] || refuses(CreateProperty(table, props[0])) then 0
    else 1 + AcceptedCount(table, props[1..], refuses)
  }

  /** What `setup` does on a server whose tables are `tables`. */
  function SetupSpec(tables: map<string, seq<Property>>, name: string, overwrite: bool,
                     refuses: Request -> bool): (r: SetupRun)
    ensures 1 <= |r.calls| && r.calls[0] == Ping
    ensures r.err == Some(ServerNotRunning) <==> refuses(Ping)
    ensures r.err.None? ==> name in r.tables
  {
    if refuses(Ping) then SetupRun(Some(ServerNotRunning), tables, [Ping])
    else
      var found := !refuses(GetTable(name)) && name in tables;
      if found && !overwrite then SetupRun(None, tables, [Ping, GetTable(name)])
      else if found && refuses(DeleteTable(name)) then
        SetupRun(Some(DeleteFailed), tables, [Ping, GetTable(name), DeleteTable(name)])
      else
        var made := CreateSpec(if found then tables - {name} else tables, name, Schema, refuses);
        SetupRun(made.err, made.tables,
                 [Ping, GetTable(name)] + (if found then [DeleteTable(name)] else []) + made.calls)
  }

  /** The `table == nil` branch of `setup`: create the table, then the properties `props`. */
  function CreateSpec(tables: map<string, seq<Property>>, name: string, props: seq<Property>,
                      refuses: Request -> bool): (r: SetupRun)
    ensures 1 <= |r.calls| && r.calls[0] == CreateTable(name)
    ensures r.err.None? <==>
      !refuses(CreateTable(name)) && name !in tables && forall i :: 0 <= i < |props| ==> !refuses(CreateProperty(name, props[i]))
    ensures r.err.None? ==> r.tables == tables[name := props]
  {
    if refuses(CreateTable(name)) || name in tables then SetupRun(Some(CreateFailed), tables, [CreateTable(name)])
    else
      var k := AcceptedCount(name, props, refuses);
      if k < |props| then
        SetupRun(Some(PropertyFailed(props[k])), tables[name := props[..k]],
                 [CreateTable(name)] + Creations(name, props[..k + 1]))
      else
        SetupRun(None, tables[name := props], [CreateTable(name)] + Creations(name, props))
  }

  /**
   * The loop over the property list: creates each in turn on `table` and
   * stops at the first failure.
   */
  method CreateProperties(server: Server, table: string, props: seq<Property>) returns (failed: Option<Property>)
    requires table in server.tables && server.tables[table] == []
    modifies server
    ensures var k := AcceptedCount(table, props, server.refuses);
      && failed == (if k < |props| then Some(props[k]) else None)
      && server.tables == old(server.tables)[table := props[..k]]
      && server.calls == old(server.calls) + Creations(table, props[..if k < |props| then k + 1 else k])
  {
    ghost var k := AcceptedCount(table, props, server.refuses);
    var i := 0;
    while i < |props|
      invariant 0 <= i <= k
      invariant server.tables == old(server.tables)[table := props[..i]]
      invariant server.calls == old(server.calls) + Creations(table, props[..i])
    {
      var ok := server.CreateProperty(table, props[i]);
      assert props[..i + 1] == props[..i] + [props[i]];
      assert Creations(table, props[..i + 1]) == Creations(table, props[..i]) + [CreateProperty(table, props[i])];
      if !ok {
        return Some(props[i]);
      }
      i := i + 1;
    }
    assert props[..i] == props;
    return None;
  }

  /** Creating the table and then its properties, as `setup` does when no table is kept. */
  method CreateWithProperties(server: Server, name: string, props: seq<Property>) returns (err: Option<SetupError>)
    modifies server
    ensures var run := CreateSpec(old(server.tables), name, props, server.refuses);
      err == run.err && server.tables == run.tables && server.calls == old(server.calls) + run.calls
  {
    ghost var tables0, calls0 := server.tables, server.calls;
    var created := server.CreateTable(name);
    if !created {
      return Some(CreateFailed);
    }
    ghost var k := AcceptedCount(name, props, server.refuses);
    ghost var sent := Creations(name, props[..if k < |props| then k + 1 else k]);
    var failed := CreateProperties(server, name, props);
    AppendAssoc(calls0, [CreateTable(name)], sent);
    assert server.tables == tables0[name := props[..k]];
    if failed.Some? {
      return Some(PropertyFailed(failed.value));
    }
    assert props[..|props|] == props;
    return None;
  }

  /** `setup`, step by step against the server. */
  method Setup(server: Server, name: string, overwrite: bool) returns (err: Option<SetupError>)
    modifies server
    ensures var run := SetupSpec(old(server.tables), name, overwrite, server.refuses);
      err == run.err && server.tables == run.tables && server.calls == old(server.calls) + run.calls
  {
    ghost var tables0, calls0 := server.tables, server.calls;
    var up := server.Ping();
    if !up {
      return Some(ServerNotRunning);
    }
    var found := server.GetTable(name);
    assert server.calls == calls0 + [Ping, GetTable(name)];
    ghost var kept := found;
    if found && overwrite {
      var deleted := server.DeleteTable(name);
      assert server.calls == calls0 + [Ping, GetTable(name), DeleteTable(name)];
      if !deleted {
        return Some(DeleteFailed);
      }
      found := false;
    }
    if !found {
      ghost var prefix := [Ping, GetTable(name)] + (if kept then [DeleteTable(name)] else []);
      ghost var made := CreateSpec(if kept then tables0 - {name} else tables0, name, Schema, server.refuses);
      assert server.calls == calls0 + prefix;
      assert server.tables == if kept then tables0 - {name} else tables0;
      err := CreateWithProperties(server, name, Schema);
      AppendAssoc(calls0, prefix, made.calls);
    } else {
      err := None;
    }
  }

  /** A server that does not answer the ping gets no other request. */
  lemma PingFirst(tables: map<string, seq<Property>>, name: string, overwrite: bool, refuses: Request -> bool)
    requires refuses(Ping)
    ensures SetupSpec(tables, name, overwrite, refuses) == SetupRun(Some(ServerNotRunning), tables, [Ping])
  {
  }

  /**
   * Without overwrite, a table that is found is reused as it is: no
   * error, nothing changes, and no property is created.
   */
  lemma ExistingTableReused(tables: map<string, seq<Property>>, name: string, refuses: Request -> bool)
    requires !refuses(Ping) && !refuses(GetTable(name)) && name in tables
    ensures SetupSpec(tables, name, false, refuses) == SetupRun(None, tables, [Ping, GetTable(name)])
  {
  }

  /**
   * With overwrite, a table that is found is deleted first; if that fails
   * nothing else is sent, otherwise a fresh table is created in its place.
   */
  lemma ExistingTableOverwritten(tables: map<string, seq<Property>>, name: string, refuses: Request -> bool)
    requires !refuses(Ping) && !refuses(GetTable(name)) && name in tables
    ensures var run := SetupSpec(tables, name, true, refuses);
      && |run.calls| >= 3 && run.calls[..3] == [Ping, GetTable(name), DeleteTable(name)]
      && (refuses(DeleteTable(name)) ==> run == SetupRun(Some(DeleteFailed), tables, run.calls[..3]))
      && (!refuses(DeleteTable(name)) ==> run.err != Some(DeleteFailed) && run.calls[3] == CreateTable(name))
  {
  }

  /**
   * Once the table has been created, the properties follow in the listed
   * order: setup succeeds exactly when all seven are accepted, the table
   * then holds them all, and after a failure it holds those before the
   * refused one and no later property was requested.
   */
  lemma FreshTableSchema(tables: map<string, seq<Property>>, name: string, refuses: Request -> bool)
    requires !refuses(CreateTable(name)) && name !in tables
    ensures var run := CreateSpec(tables, name, Schema, refuses);
      && name in run.tables
      && run.tables[name] == Schema[..|run.tables[name]|]
      && (run.err == None <==> forall p :: p in Schema ==> !refuses(CreateProperty(name, p)))
      && (run.err == None ==> run.tables[name] == Schema)
      && (run.err != None ==>
            var k := |run.tables[name]|;
            k < |Schema| && run.err == Some(PropertyFailed(Schema[k])) &&
            run.calls == [CreateTable(name)] + Creations(name, Schema[..k + 1]))
  {
    var k := AcceptedCount(name, Schema, refuses);
    if k < |Schema| {
      assert Schema[k] in Schema;
    } else {
      forall p | p in Schema
        ensures !refuses(CreateProperty(name, p))
      {
        var i :| 0 <= i < |Schema| && Schema[i] == p;
      }
    }
  }

  /**
   * A successful setup leaves the named table in place, either the one that
   * was kept or a new one with the full schema; other tables are untouched.
   */
  lemma SetupLeavesTable(tables: map<string, seq<Property>>, name: string, overwrite: bool, refuses: Request -> bool)
    ensures var run := SetupSpec(tables, name, overwrite, refuses);
      && (run.err == None ==> name in run.tables && (run.tables[name] == Schema || (!overwrite && run.tables == tables)))
      && (forall t :: t != name ==> (t in run.tables <==> t in tables))
      && (forall t :: t != name && t in tables ==> run.tables[t] == tables[t])
  {
    if !refuses(Ping) {
      var found := !refuses(GetTable(name)) && name in tables;
      if !(found && !overwrite) && !(found && refuses(DeleteTable(name))) {
        CreateTouchesOnlyName(if found then tables - {name} else tables, name, Schema, refuses);
      }
    }
  }

  /** Creating a table changes that table only; on success it holds exactly `props`. */
  lemma CreateTouchesOnlyName(tables: map<string, seq<Property>>, name: string, props: seq<Property>,
                              refuses: Request -> bool)
    ensures var run := CreateSpec(tables, name, props, refuses);
      && (run.err == None ==> run.tables == tables[name := props])
      && (forall t :: t != name ==> (t in run.tables <==> t in tables))
      && (forall t :: t != name && t in tables ==> run.tables[t] == tables[t])
  {
  }
}
