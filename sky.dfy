/**
 * The Sky server as the importers see it through the sky.go client: a
 * registry of tables by name, each with its properties, and the log of
 * every request the client sent, in order. Which requests the server
 * refuses is not known to the importer; `refuses` stands for that, so
 * every property proved here holds whatever fixed answer the server gives
 * each distinct request. The client library and the wire protocol are not
 * part of this model.
 */
module Sky {
  import opened Records

  /** Property data types: `sky.String`, `sky.Factor`, `sky.Integer`. */
  datatype DataType = String | Factor | Integer

  /** `sky.NewProperty(name, transient, dataType)`. */
  datatype Property = Property(name: string, transient: bool, dataType: DataType)

  /** The insertion mode of `Table.AddEvent`; the importer only uses `sky.Merge`. */
  datatype AddMode = Merge

  /** One client call, as the server receives it. */
  datatype Request =
    | Ping
    | GetTable(name: string)
    | DeleteTable(name: string)
    | CreateTable(name: string)
    | CreateProperty(table: string, property: Property)
    | AddEvent(table: string, username: string, event: Event, mode: AddMode)
    | StreamEvent(table: string, username: string, event: Event)

  class Server {
    /** The tables that exist, with their properties in creation order. */
    var tables: map<string, seq<Property>>
    /** Every request sent so far. */
    var calls: seq<Request>
    /** The requests this server fails. */
    const refuses: Request -> bool

    constructor (tables: map<string, seq<Property>>, refuses: Request -> bool)
      ensures this.tables == tables && this.calls == [] && this.refuses == refuses
    {
      this.tables := tables;
      this.calls := [];
      this.refuses := refuses;
    }

    /** `client.Ping()`: whether the server answers. */
    method Ping() returns (up: bool)
      modifies this
      ensures up == !refuses(Request.Ping)
      ensures calls == old(calls) + [Request.Ping] && tables == old(tables)
    {
      calls := calls + [Request.Ping];
      up := !refuses(Request.Ping);
    }

    /** `client.GetTable(name)`: non-nil only when the table exists and the call succeeds. */
    method GetTable(name: string) returns (found: bool)
      modifies this
      ensures found == (!refuses(Request.GetTable(name)) && name in tables)
      ensures calls == old(calls) + [Request.GetTable(name)] && tables == old(tables)
    {
      calls := calls + [Request.GetTable(name)];
      found := !refuses(Request.GetTable(name)) && name in tables;
    }

    /** `client.DeleteTable(table)`. */
    method DeleteTable(name: string) returns (ok: bool)
      modifies this
      ensures ok == (!refuses(Request.DeleteTable(name)) && name in old(tables))
      ensures tables == if ok then old(tables) - {name} else old(tables)
      ensures calls == old(calls) + [Request.DeleteTable(name)]
    {
      calls := calls + [Request.DeleteTable(name)];
      ok := !refuses(Request.DeleteTable(name)) && name in tables;
      if ok {
        tables := tables - {name};
      }
    }

    /** `client.CreateTable(table)`: a new table has no properties. */
    method CreateTable(name: string) returns (ok: bool)
      modifies this
      ensures ok == (!refuses(Request.CreateTable(name)) && name !in old(tables))
      ensures tables == if ok then old(tables)[name := []] else old(tables)
      ensures calls == old(calls) + [Request.CreateTable(name)]
    {
      calls := calls + [Request.CreateTable(name)];
      ok := !refuses(Request.CreateTable(name)) && name !in tables;
      if ok {
        tables := tables[name := []];
      }
    }

    /** `table.CreateProperty(property)`: appends to the table's properties. */
    method CreateProperty(table: string, property: Property) returns (ok: bool)
      modifies this
      ensures ok == (!refuses(Request.CreateProperty(table, property)) && table in old(tables))
      ensures tables == if ok then old(tables)[table := old(tables)[table] + [property]] else old(tables)
      ensures calls == old(calls) + [Request.CreateProperty(table, property)]
    {
      calls := calls + [Request.CreateProperty(table, property)];
      ok := !refuses(Request.CreateProperty(table, property)) && table in tables;
      if ok {
        tables := tables[table := tables[table] + [property]];
      }
    }

    /** `table.AddEvent(username, event, sky.Merge)`. */
    method AddEvent(table: string, username: string, event: Event) returns (ok: bool)
      modifies this
      ensures ok == !refuses(Request.AddEvent(table, username, event, Merge))
      ensures calls == old(calls) + [Request.AddEvent(table, username, event, Merge)] && tables == old(tables)
    {
      calls := calls + [Request.AddEvent(table, username, event, Merge)];
      ok := !refuses(Request.AddEvent(table, username, event, Merge));
    }

    /** `stream.AddEvent(username, event)` inside `table.Stream`. */
    method StreamEvent(table: string, username: string, event: Event) returns (ok: bool)
      modifies this
      ensures ok == !refuses(Request.StreamEvent(table, username, event))
      ensures calls == old(calls) + [Request.StreamEvent(table, username, event)] && tables == old(tables)
    {
      calls := calls + [Request.StreamEvent(table, username, event)];
      ok := !refuses(Request.StreamEvent(table, username, event));
    }
  }
}
