/** The datastore (src/main/java/gg/amy/pgorm/PgStore.java): its pool
    configuration, its connected flag, and its registry of one mapper and
    one asynchronous mapper per entity class.

    Statements the store executes are recorded in a ghost log, in the order
    they are passed to `sql`; what the database then does with them is not
    part of this model. */
module Store {
  import opened Wrappers
  import opened Schema
  import Mapper

  /** The fields of a HikariConfig the store sets. */
  datatype PoolConfig = PoolConfig(
    jdbcUrl: string,
    username: string,
    password: string,
    dataSourceProperties: map<string, string>)

  /** The prepared-statement cache settings every credential-built store uses. */
  const DefaultDataSourceProperties: map<string, string> :=
    map["cachePrepStmts" := "true", "prepStmtCacheSize" := "250", "prepStmtCacheSqlLimit" := "2048"]

  /** `buildConfig`: the credentials plus the fixed cache settings. */
  function BuildConfig(url: string, user: string, pass: string): (c: PoolConfig)
    ensures c.jdbcUrl == url && c.username == user && c.password == pass
    ensures c.dataSourceProperties.Keys == {"cachePrepStmts", "prepStmtCacheSize", "prepStmtCacheSqlLimit"}
    ensures c.dataSourceProperties["cachePrepStmts"] == "true"
    ensures c.dataSourceProperties["prepStmtCacheSize"] == "250"
    ensures c.dataSourceProperties["prepStmtCacheSqlLimit"] == "2048"
  {
    PoolConfig(url, user, pass, DefaultDataSourceProperties)
  }

  /** A HikariDataSource: the configuration it was opened with, and whether
      it has been closed since. */
  datatype DataSource = DataSource(config: PoolConfig, open: bool)

  /** An AsyncPgMapper: it holds the synchronous mapper it delegates to. */
  datatype AsyncPgMapper = AsyncPgMapper(sync: PgMapper)

  class PgStore {
    var syncMappers: map<EntityClass, PgMapper>
    var asyncMappers: map<EntityClass, AsyncPgMapper>
    const config: PoolConfig
    var hikari: Option<DataSource>
    var connected: bool
    /** The statements passed to `sql`, oldest first. */
    ghost var log: seq<string>

    /** Every registered mapper is the one its class derives; every
        asynchronous mapper wraps the registered mapper of its class; the
        store is connected exactly when its pool is open. */
    ghost predicate Valid()
      reads this
    {
      && (forall c :: c in syncMappers ==> Derive(c) == Success(syncMappers[c]))
      && (forall c :: c in asyncMappers ==> c in syncMappers && asyncMappers[c] == AsyncPgMapper(syncMappers[c]))
      && (connected <==> hikari.Some? && hikari.value.open)
      && (hikari.Some? ==> hikari.value.config == config)
    }

    /** `PgStore(HikariConfig)`: nothing is opened yet. */
    constructor (config: PoolConfig)
      ensures Valid()
      ensures this.config == config && hikari.None? && !connected
      ensures syncMappers == map[] && asyncMappers == map[] && log == []
    {
      this.config := config;
      syncMappers := map[];
      asyncMappers := map[];
      hikari := None;
      connected := false;
      log := [];
    }

    /** `PgStore(url, user, pass)`. */
    constructor FromCredentials(url: string, user: string, pass: string)
      ensures Valid()
      ensures config == BuildConfig(url, user, pass) && hikari.None? && !connected
      ensures syncMappers == map[] && asyncMappers == map[] && log == []
    {
      config := BuildConfig(url, user, pass);
      syncMappers := map[];
      asyncMappers := map[];
      hikari := None;
      connected := false;
      log := [];
    }

    /** `connect`: opens a pool with the store's configuration, unless
        already connected, in which case nothing changes. */
    method Connect()
      requires Valid()
      modifies this`hikari, this`connected
      ensures Valid() && connected
      ensures old(connected) ==> hikari == old(hikari)
      ensures !old(connected) ==> hikari == Some(DataSource(config, true))
    {
      if connected {
        return;
      }
      hikari := Some(DataSource(config, true));
      connected := true;
    }

    /** `disconnect`: closes the pool, unless not connected, in which case
        nothing changes. */
    method Disconnect()
      requires Valid()
      modifies this`hikari, this`connected
      ensures Valid() && !connected
      ensures !old(connected) ==> hikari == old(hikari)
      ensures old(connected) ==> hikari == Some(DataSource(config, false))
    {
      if !connected {
        return;
      }
      hikari := Some(hikari.value.(open := false));
      connected := false;
    }

    /** `sql(String)`: execute one statement. */
    method Sql(statement: string)
      modifies this`log
      ensures log == old(log) + [statement]
    {
      log := log + [statement];
    }

    /** `mapSync`: the registered mapper of the class, or else a new one,
        which bootstraps the class's table and is then registered. A class
        whose `init` throws is not registered. */
    method MapSync(c: EntityClass) returns (r: Result<PgMapper, InitError>)
      requires Valid()
      modifies this`syncMappers, this`log
      ensures Valid()
      ensures r == Derive(c)
      ensures c in old(syncMappers) ==> syncMappers == old(syncMappers) && log == old(log)
      ensures c !in old(syncMappers) && r.Success? ==>
        syncMappers == old(syncMappers)[c := r.value] && log == old(log) + Bootstrap(r.value)
      ensures c !in old(syncMappers) && r.Failure? ==>
        syncMappers == old(syncMappers) && log == old(log)
    {
      if c in syncMappers {
        return Success(syncMappers[c]);
      }
      // not registered yet: run init and execute what it issues
      var issued;
      r, issued := Mapper.Init(c);
      if r.Failure? {
        return;
      }
      for i := 0 to |issued|
        invariant log == old(log) + issued[..i]
        invariant syncMappers == old(syncMappers)
      {
        assert issued[..i + 1] == issued[..i] + [issued[i]];
        Sql(issued[i]);
      }
      assert issued[..|issued|] == issued;
      syncMappers := syncMappers[c := r.value];
    }

    /** `mapAsync`: the registered asynchronous mapper of the class, or else
        one wrapping `mapSync`'s mapper, which is then registered. */
    method MapAsync(c: EntityClass) returns (r: Result<AsyncPgMapper, InitError>)
      requires Valid()
      modifies this`syncMappers, this`asyncMappers, this`log
      ensures Valid()
      ensures Derive(c).Success? ==> r == Success(AsyncPgMapper(Derive(c).value))
      ensures Derive(c).Failure? ==> r == Failure(Derive(c).error)
      ensures c in old(asyncMappers) ==>
        syncMappers == old(syncMappers) && asyncMappers == old(asyncMappers) && log == old(log)
      ensures c !in old(asyncMappers) && r.Success? ==>
        && asyncMappers == old(asyncMappers)[c := r.value]
        && syncMappers == old(syncMappers)[c := r.value.sync]
        && log == old(log) + (if c in old(syncMappers) then [] else Bootstrap(r.value.sync))
      ensures c !in old(asyncMappers) && r.Failure? ==>
        syncMappers == old(syncMappers) && asyncMappers == old(asyncMappers) && log == old(log)
    {
      if c in asyncMappers {
        return Success(asyncMappers[c]);
      }
      // not registered yet: wrap the synchronous mapper
      var sync := MapSync(c);
      if sync.Failure? {
        return Failure(sync.error);
      }
      var async := AsyncPgMapper(sync.value);
      asyncMappers := asyncMappers[c := async];
      r := Success(async);
    }
  }

  /** The mapper test's setup and teardown: connect, map the test class
      (which bootstraps its table), map it again (which issues nothing),
      drop the table, disconnect. Returns what the store executed and
      whether it is still connected. */
  method MapperTestLifecycle(url: string, user: string, pass: string) returns (ghost executed: seq<string>, connected: bool)
    ensures executed == [CreateTableSql(TestDataTable, "id", TEXT), GinDataIndexSql(TestDataTable),
                         "DROP TABLE IF EXISTS " + TestDataTable + ";"]
    ensures !connected
  {
    var store := new PgStore.FromCredentials(url, user, pass);
    store.Connect();
    MapperTestCorrect();
    var mapper := store.MapSync(CorrectTestDataClass());
    var again := store.MapSync(CorrectTestDataClass());
    assert again == mapper;
    store.Sql("DROP TABLE IF EXISTS " + TestDataTable + ";");
    store.Disconnect();
    executed := store.log;
    connected := store.connected;
  }
}
