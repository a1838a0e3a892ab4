/**
 * The connection cache of the DB2 helper class: one cached JDBC connection,
 * re-validated by a ping before every reuse, and a JDBC driver loaded only
 * until it has loaded once.
 *
 * The driver and the server are outside the model: what they answer during
 * one `getConnection` call (does the driver class load, which connection
 * does the driver manager hand out, does the ping succeed, does closing
 * succeed) is a `Driver` value passed in, and every call into them is
 * recorded as an `Effect`.
 */
module Connection {

  import opened Wrappers
  import opened Constants
  import opened Normaliser

  /** An open JDBC connection; `id` tells apart the connections the driver manager hands out. */
  datatype Handle = Handle(id: nat)

  /** The answers of the driver and of the server during one call. */
  datatype Driver = Driver(
    loads: bool,             // loading the driver class succeeds
    handedOut: Option<Handle>,  // what the driver manager returns; None for null or an exception
    pingOk: bool,            // the ping query on the cached connection succeeds
    closeOk: bool)           // closing the cached connection succeeds

  /** A call into the driver or the server. */
  datatype Effect =
    | LoadDriver
    | Open(url: string, user: string, passwd: string)
    | Ping(sql: string)
    | Close(h: Handle)

  /** The two fields of the helper. */
  datatype Cache = Cache(conn: Option<Handle>, connectionInitialized: bool)

  /** The new fields, the connection handed back and the calls made. */
  datatype Outcome = Outcome(cache: Cache, conn: Option<Handle>, effects: seq<Effect>)

  /** The JDBC URL of a database on a host. */
  function DbUrl(host: string, database: string): string {
    JDBC_URL + host + SLASH + database
  }

  // ---------------------------------------------------------------------
  // Reference definitions

  /** `getNewConnection`: loads the driver unless it has loaded, then asks for a new connection. */
  function NewConnection(c: Cache, url: string, user: string, passwd: string, d: Driver): Outcome {
    if !c.connectionInitialized && !d.loads then Outcome(c, None, [LoadDriver])
    else if !c.connectionInitialized then
      Outcome(c.(connectionInitialized := true), d.handedOut, [LoadDriver, Open(url, user, passwd)])
    else Outcome(c, d.handedOut, [Open(url, user, passwd)])
  }

  /** The calls `isConnectionValid` makes: a ping when a connection is cached. */
  function PingEffects(c: Cache): seq<Effect> {
    if c.conn.Some? then [Ping(PING)] else []
  }

  /** `closeConnection`: the field is cleared only when closing succeeds. */
  function Closed(c: Cache, d: Driver): Outcome {
    if c.conn.None? then Outcome(c, None, [])
    else if d.closeOk then Outcome(c.(conn := None), None, [Close(c.conn.value)])
    else Outcome(c, None, [Close(c.conn.value)])
  }

  /** `getConnection`: a new connection when none is cached or the cached one fails its ping. */
  function Connect(c: Cache, host: string, database: string, user: string, passwd: string, d: Driver): Outcome {
    if c.conn.None? then
      var o := NewConnection(c, DbUrl(host, database), user, passwd, d);
      Outcome(o.cache.(conn := o.conn), o.conn, o.effects)
    else if d.pingOk then Outcome(c, c.conn, [Ping(PING)])
    else
      var cl := Closed(c, d);
      var o := NewConnection(cl.cache, DbUrl(host, database), user, passwd, d);
      Outcome(o.cache.(conn := o.conn), o.conn, [Ping(PING)] + cl.effects + o.effects)
  }

  /** How many connections were asked for. */
  function Opens(effects: seq<Effect>): nat {
    if effects == [] then 0 else (if effects[0].Open? then 1 else 0) + Opens(effects[1..])
  }

  /** How many times loading the driver was attempted. */
  function Loads(effects: seq<Effect>): nat {
    if effects == [] then 0 else (if effects[0].LoadDriver? then 1 else 0) + Loads(effects[1..])
  }

  lemma {:induction false} CountsOfConcat(a: seq<Effect>, b: seq<Effect>)
    ensures Opens(a + b) == Opens(a) + Opens(b)
    ensures Loads(a + b) == Loads(a) + Loads(b)
  {
    if a != [] {
      assert (a + b)[0] == a[0];
      assert (a + b)[1..] == a[1..] + b;
      CountsOfConcat(a[1..], b);
    } else {
      assert a + b == b;
    }
  }

  // ---------------------------------------------------------------------
  // Properties of one getConnection call

  /** The connection handed back is always the one left in the cache. */
  lemma ConnectCaches(c: Cache, host: string, database: string, user: string, passwd: string, d: Driver)
    ensures var o := Connect(c, host, database, user, passwd, d); o.cache.conn == o.conn
  {
  }

  /** A cached connection that answers the ping is reused: nothing is opened, closed or changed. */
  lemma HealthyConnectionReused(c: Cache, host: string, database: string, user: string, passwd: string, d: Driver)
    requires c.conn.Some? && d.pingOk
    ensures var o := Connect(c, host, database, user, passwd, d);
      o.conn == c.conn && o.cache == c && o.effects == [Ping(PING)] && Opens(o.effects) == 0
  {
  }

  /**
   * A failed ping closes the old connection and asks for exactly one new one (when the driver
   * is available); the old connection leaves the cache even when closing it fails.
   */
  lemma BrokenConnectionReplaced(c: Cache, host: string, database: string, user: string, passwd: string, d: Driver)
    requires c.conn.Some? && !d.pingOk
    ensures var o := Connect(c, host, database, user, passwd, d);
      o.effects[..2] == [Ping(PING), Close(c.conn.value)]
      && o.conn == (if c.connectionInitialized || d.loads then d.handedOut else None)
      && Opens(o.effects) == (if c.connectionInitialized || d.loads then 1 else 0)
  {
    var cl := Closed(c, d);
    var o := NewConnection(cl.cache, DbUrl(host, database), user, passwd, d);
    assert cl.effects == [Close(c.conn.value)];
    assert cl.cache.connectionInitialized == c.connectionInitialized;
    OpensOfNew(cl.cache, DbUrl(host, database), user, passwd, d);
    CountsOfConcat([Ping(PING)] + cl.effects, o.effects);
    assert [Ping(PING)] + cl.effects == [Ping(PING), Close(c.conn.value)];
    assert Opens([Ping(PING), Close(c.conn.value)]) == 0 by {
      assert [Ping(PING), Close(c.conn.value)][1..] == [Close(c.conn.value)];
      assert [Close(c.conn.value)][1..] == [];
    }
    assert ([Ping(PING)] + cl.effects + o.effects)[..2] == [Ping(PING), Close(c.conn.value)];
  }

  /** With nothing cached there is no ping and no close, and exactly one connection is asked for (when the driver is available). */
  lemma EmptyCacheOpensOnce(c: Cache, host: string, database: string, user: string, passwd: string, d: Driver)
    requires c.conn.None?
    ensures var o := Connect(c, host, database, user, passwd, d);
      (forall e | e in o.effects :: !e.Ping? && !e.Close?)
      && Opens(o.effects) == (if c.connectionInitialized || d.loads then 1 else 0)
      && o.conn == (if c.connectionInitialized || d.loads then d.handedOut else None)
  {
    var url := DbUrl(host, database);
    var o := NewConnection(c, url, user, passwd, d);
    OpensOfNew(c, url, user, passwd, d);
  }

  /** The calls `getNewConnection` makes: at most one load and one request, never a ping or a close. */
  lemma OpensOfNew(c: Cache, url: string, user: string, passwd: string, d: Driver)
    ensures var o := NewConnection(c, url, user, passwd, d);
      (forall e | e in o.effects :: !e.Ping? && !e.Close?)
      && Opens(o.effects) == (if c.connectionInitialized || d.loads then 1 else 0)
      && Loads(o.effects) == (if c.connectionInitialized then 0 else 1)
  {
    var open := Open(url, user, passwd);
    assert Opens([open]) == 1 && Loads([open]) == 0 by {
      assert [open][1..] == [];
    }
    assert Opens([LoadDriver]) == 0 && Loads([LoadDriver]) == 1 by {
      assert [LoadDriver][1..] == [];
    }
    assert [LoadDriver, open][1..] == [open];
  }

  /** Every connection is asked for with the URL built from host and database and the configured credentials. */
  lemma OpensWithConfiguredUrl(c: Cache, host: string, database: string, user: string, passwd: string, d: Driver, e: Effect)
    requires e in Connect(c, host, database, user, passwd, d).effects && e.Open?
    ensures e == Open("jdbc:db2://" + host + "/" + database, user, passwd)
  {
  }

  /**
   * The driver is loaded exactly when a connection is needed and it has not loaded before;
   * once it has loaded it stays loaded; a failed load asks for no connection.
   */
  lemma DriverLoadedUntilSuccess(c: Cache, host: string, database: string, user: string, passwd: string, d: Driver)
    ensures var o := Connect(c, host, database, user, passwd, d);
      var needed := c.conn.None? || !d.pingOk;
      Loads(o.effects) == (if needed && !c.connectionInitialized then 1 else 0)
      && o.cache.connectionInitialized == (c.connectionInitialized || (needed && d.loads))
      && (needed && !c.connectionInitialized && !d.loads ==> Opens(o.effects) == 0 && o.conn == None)
  {
    if c.conn.Some? && !d.pingOk {
      var cl := Closed(c, d);
      var o := NewConnection(cl.cache, DbUrl(host, database), user, passwd, d);
      CountsOfConcat([Ping(PING)] + cl.effects, o.effects);
      CountsOfConcat([Ping(PING)], cl.effects);
    }
  }

  // ---------------------------------------------------------------------
  // Properties of a sequence of calls

  /** The cache after a sequence of getConnection calls, and all the calls made into the driver. */
  function Run(c: Cache, host: string, database: string, user: string, passwd: string, ds: seq<Driver>): Outcome
    decreases |ds|
  {
    if ds == [] then Outcome(c, c.conn, [])
    else
      var o := Connect(c, host, database, user, passwd, ds[0]);
      var rest := Run(o.cache, host, database, user, passwd, ds[1..]);
      Outcome(rest.cache, rest.conn, o.effects + rest.effects)
  }

  /** Once the driver has loaded, no call of a run tries to load it again, and it stays loaded. */
  lemma {:induction false} DriverLoadsOnce(c: Cache, host: string, database: string, user: string, passwd: string, ds: seq<Driver>)
    ensures var o := Run(c, host, database, user, passwd, ds);
      c.connectionInitialized ==> Loads(o.effects) == 0 && o.cache.connectionInitialized
    decreases |ds|
  {
    if ds != [] {
      var o := Connect(c, host, database, user, passwd, ds[0]);
      DriverLoadedUntilSuccess(c, host, database, user, passwd, ds[0]);
      DriverLoadsOnce(o.cache, host, database, user, passwd, ds[1..]);
      CountsOfConcat(o.effects, Run(o.cache, host, database, user, passwd, ds[1..]).effects);
    }
  }

  // ---------------------------------------------------------------------
  // The helper object

  class DB2 {
    var conn: Option<Handle>
    var connectionInitialized: bool
    /** The calls made into the driver so far. */
    ghost var effects: seq<Effect>

    function Fields(): Cache
      reads this
    {
      Cache(conn, connectionInitialized)
    }

    constructor()
      ensures conn == None && !connectionInitialized && effects == []
    {
      conn := None;
      connectionInitialized := false;
      effects := [];
    }

    /** `getNewConnection`; the connection properties are not part of the URL. */
    method GetNewConnection(host: string, database: string, user: string, passwd: string, properties: Option<string>, d: Driver)
      returns (newConn: Option<Handle>)
      modifies this
      ensures var o := NewConnection(old(Fields()), DbUrl(host, database), user, passwd, d);
        Fields() == o.cache && newConn == o.conn && effects == old(effects) + o.effects
    {
      var dbUrl := BuildString([Some(JDBC_URL), Some(host), Some(SLASH), Some(database)]);
      ConcatOfFour(JDBC_URL, host, SLASH, database);
      newConn := None;
      if !connectionInitialized {
        effects := effects + [LoadDriver];
        if !d.loads {
          return;
        }
        connectionInitialized := true;
      }
      effects := effects + [Open(dbUrl, user, passwd)];
      newConn := d.handedOut;
    }

    /** `isConnectionValid`: false when nothing is cached, otherwise whether the ping succeeds. */
    method IsConnectionValid(d: Driver) returns (available: bool)
      modifies this
      ensures available <==> conn.Some? && d.pingOk
      ensures conn == old(conn) && connectionInitialized == old(connectionInitialized)
      ensures effects == old(effects) + PingEffects(old(Fields()))
    {
      available := false;
      if conn.Some? {
        effects := effects + [Ping(PING)];
        available := d.pingOk;
      }
    }

    /** `closeConnection`. */
    method CloseConnection(d: Driver)
      modifies this
      ensures var o := Closed(old(Fields()), d); Fields() == o.cache && effects == old(effects) + o.effects
    {
      if conn.Some? {
        effects := effects + [Close(conn.value)];
        if d.closeOk {
          conn := None;
        }
      }
    }

    /** `getConnection`. */
    method GetConnection(host: string, database: string, user: string, passwd: string, properties: Option<string>, d: Driver)
      returns (r: Option<Handle>)
      modifies this
      ensures var o := Connect(old(Fields()), host, database, user, passwd, d);
        Fields() == o.cache && r == o.conn && effects == old(effects) + o.effects
    {
      if conn.None? {
        conn := GetNewConnection(host, database, user, passwd, properties, d);
      } else {
        var valid := IsConnectionValid(d);
        if !valid {
          CloseConnection(d);
          conn := GetNewConnection(host, database, user, passwd, properties, d);
        }
      }
      r := conn;
    }
  }
}
