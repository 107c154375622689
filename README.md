# pgorm in Dafny

A model of the core of pgorm, a small Java object mapper that stores each
entity as one JSONB document in a PostgreSQL table. The model covers:

- **the mapper** (`PgMapper`). `init` checks an entity class and bootstraps its table
  and indexes. `save` upserts an entity's JSON document under its primary key,
  and `load` reads a document back by key.
- **the store** (`PgStore`). This covers the pool configuration, `connect` and
  `disconnect`, the statement channel `sql`, and the per-class registries behind
  `mapSync` and `mapAsync`.
- **the query builder** (`QueryBuilder`). It is a string accumulator with the
  `Order` and `Comparison` enums.

## Layout

| file | module | contents |
|---|---|---|
| `Wrappers.dfy` | `Wrappers` | `Option` and `Result` |
| `Text.dfy` | `Text` | prefix and substring predicates on strings, with small lemmas |
| `Schema.dfy` | `Schema` | entity-class descriptors, the primary-key scan, `Derive` (what `init` decides), the DDL text, `Bootstrap` (the statements `init` issues) and the DDL lemmas; the entity classes of the repository's mapper test |
| `Mapper.dfy` | `Mapper` | the `init` method with its loops; `save` and `load` on a table of rows |
| `Store.dfy` | `Store` | the `PgStore` class |
| `Query.dfy` | `Query` | the `QueryBuilder` class and what it builds |

How the Java constructs are represented:

- **Entity classes.** Reflection and annotations become a value, `EntityClass`:
  - the class name;
  - the `@Table` value, if present;
  - the fields in the order `getDeclaredFields()` returns them (reflection order, which the JDK does not promise but which is usually declaration order), each with its Java type and its `@PrimaryKey` column (default `id`);
  - a Java type other than the five key types `typeToSqlType` maps is `OtherClass` of its name, and that name cannot be one of the five.
  - the `@BtreeIndex` and `@GIndex` field lists.
- **Mappers.** `init` either throws or yields a mapper. It is modelled twice:
  - `Schema.Derive` is the specification;
  - `Mapper.Init` is the imperative scan, with the source's loops, proved equal to it.
- **Issued statements.** `Init` also returns the statements it passes to the store, in order. `PgStore.MapSync` hands them to `PgStore.Sql`, which appends each one to a ghost log.
- **Rows.** The table `save` and `load` work on is a map from key value to stored JSON text.
- **Upsert.** `Mapper.ApplyUpsert` gives the meaning of the upsert.
- **Jackson and field access.** These become a parameter, `Codec`. Each of its functions may fail.
- **The query builder.** It is a class with the `query` string field. Ghost state holds the table and the calls made so far. Its invariant says that the query is `Render(table, calls)`.

Where the documentation and the code disagree, the model follows the code:

- **Duplicate `@PrimaryKey` annotations.** The annotation's documentation
  (`src/main/java/gg/amy/pgorm/annotations/PrimaryKey.java:10-11`) says that
  annotating several fields throws. The scan in `init` throws nothing and keeps
  the last annotated field. `Schema.LastPrimaryKey` and
  `Schema.TwoPrimaryKeysLastWins` state this behaviour.
- **The test classes' `@Index` annotation.** The mapper never reads it. The test
  classes therefore list no B-tree or GIN fields. `Schema.MapperTestCorrect`
  shows that their bootstrap is the CREATE TABLE plus the whole-document GIN index.

`Schema.IndexNamesDistinct` also shows one consequence of the index naming scheme:

- A `@GIndex` entry `data` gets the name `idx_gin_<table>_data`. The whole-document index already has that name.
- Because the statement uses IF NOT EXISTS, that entry's index is then never created.

Index names are also not unique across tables. `Schema.BtreeNamesClashAcrossTables`
shows that field `x_y` on table `t` and field `y` on table `t_x` both get the
index name `idx_btree_t_x_y`. Whichever table is bootstrapped second then
silently gets no index on that field.

`Store.MapperTestLifecycle` follows the mapper test's setup and teardown as a
client of the store: connect, map the test class, map it again, drop the
table, disconnect. `Query.WidgetsQuery` builds the chain
`where().has("name").and().compareValue("age","int","18",GT).order("age","int",ASC)`. `Query.WidgetsQueryInOrder` shows where each of its fragments sits in the query text.

## Model

| member | source | states |
|---|---|---|
| Schema.JavaTypeNameInjective | src/main/java/gg/amy/pgorm/PgMapper.java:151-159 | two descriptors are the same Java type exactly when their names agree, so matching on the descriptor is the `equals` test on classes |
| Schema.TypeToSqlType | src/main/java/gg/amy/pgorm/PgMapper.java:151-161 | String maps to TEXT, Integer/int to INT, Long/long to BIGINT, each exactly; every other type fails with the no-mapping error, an IllegalArgumentException |
| Schema.LastPrimaryKey | src/main/java/gg/amy/pgorm/PgMapper.java:52-60 | the scan finds no key exactly when no field is annotated; otherwise it picks the last annotated field in reflection order |
| Schema.Derive | src/main/java/gg/amy/pgorm/PgMapper.java:45-66 | no `@Table` fails with NoTable; no annotated field fails with NoPrimaryKey; else the last annotated field's type decides: an unmapped type fails with NoSqlType; success carries the class, its table, the last annotated field, its column and its SQL type |
| Mapper.Init | src/main/java/gg/amy/pgorm/PgMapper.java:45-94 | the loop-based `init` returns exactly what Derive decides; on failure it issues nothing; on success it issues exactly Bootstrap, in order |
| Schema.Bootstrap | src/main/java/gg/amy/pgorm/PgMapper.java:67-93 | CREATE TABLE first, then one B-tree index per `@BtreeIndex` entry in order, then the whole-document GIN index, then one GIN index per `@GIndex` entry in order; the count is 2 + the two list lengths |
| Schema.CreateTableShape | src/main/java/gg/amy/pgorm/PgMapper.java:68-71 | CREATE TABLE starts with `CREATE TABLE IF NOT EXISTS <table> (<column> <sqltype> PRIMARY KEY NOT NULL UNIQUE,`, contains ` IF NOT EXISTS ` and contains `data JSONB` |
| Schema.CreateIndexShape | src/main/java/gg/amy/pgorm/PgMapper.java:77-89 | every CREATE INDEX starts with `CREATE INDEX IF NOT EXISTS <name> ON <table> USING ` and contains ` IF NOT EXISTS ` |
| Schema.BootstrapIsIdempotentDdl | src/main/java/gg/amy/pgorm/PgMapper.java:67-93 | every bootstrap statement contains ` IF NOT EXISTS `; the first creates the table; each later one creates the index IndexNames lists at its place, on the mapper's table |
| Schema.BootstrapIndexShape | src/main/java/gg/amy/pgorm/PgMapper.java:73-93 | the statement at position k ≥ 1 is a CREATE INDEX IF NOT EXISTS for index name k - 1 on the mapper's table |
| Schema.CreateTableColumns | src/main/java/gg/amy/pgorm/PgMapper.java:68-70 | the bootstrap's first statement declares the key column under the annotation's column with the mapped SQL type, and the JSONB `data` column |
| Schema.BtreeIndexNameInjective | src/main/java/gg/amy/pgorm/PgMapper.java:77 | two B-tree index names on one table are equal exactly when their fields are |
| Schema.GinIndexNameInjective | src/main/java/gg/amy/pgorm/PgMapper.java:89 | two GIN index names on one table are equal exactly when their fields are |
| Schema.GinDataNameIsGinName | src/main/java/gg/amy/pgorm/PgMapper.java:83-89 | the whole-document GIN index has the name a `@GIndex` entry `data` would get |
| Schema.BtreeNameIsNotGinName | src/main/java/gg/amy/pgorm/PgMapper.java:77-89 | no B-tree index name equals a GIN index name |
| Schema.BtreeNamesClashAcrossTables | src/main/java/gg/amy/pgorm/PgMapper.java:77 | field `x_y` of table `t` and field `y` of table `t_x` get the same B-tree index name |
| Schema.IndexNamesDistinct | src/main/java/gg/amy/pgorm/PgMapper.java:73-93 | the bootstrap's index names are pairwise distinct exactly when the B-tree list has no repeats, the GIN list has no repeats and the GIN list has no `data` |
| Schema.MapperTestNoPk | src/test/java/gg/amy/pgorm/PgMapperTest.java:83-86 | the class without a key field fails with NoPrimaryKey, an IllegalStateException, whose message is `Class <name> has no @PrimaryKey!?` as built at PgMapper.java:62 |
| Schema.MapperTestNoTable | src/test/java/gg/amy/pgorm/PgMapperTest.java:88-91 | the class without `@Table` fails with NoTable, an IllegalStateException, whose message is `Got class <name> to map, but it has no @Table!?` as built at PgMapper.java:48 |
| Schema.MapperTestBadPkType | src/test/java/gg/amy/pgorm/PgMapperTest.java:93-96 | the class with an `Object` key fails with NoSqlType(Object), an IllegalArgumentException, whose message is `No SQL type mapping known for class of type: java.lang.Object` as built at PgMapper.java:159 |
| Schema.MapperTestCorrect | src/test/java/gg/amy/pgorm/PgMapperTest.java:140-153 | the test class maps to `test_data_table` with key column `id` of type TEXT, and bootstraps exactly the table and its whole-document GIN index |
| Schema.TwoPrimaryKeysLastWins | src/main/java/gg/amy/pgorm/PgMapper.java:54-60 | with two annotated fields, init succeeds with the later field and its column as the key |
| Mapper.Save | src/main/java/gg/amy/pgorm/PgMapper.java:96-116 | save issues its upsert exactly when the key can be read and the entity encoded; an unreadable key and an unencodable entity are the two logged failures; the upsert binds key, document, key, document |
| Mapper.ApplyUpsert | src/main/java/gg/amy/pgorm/PgMapper.java:103-108 | the insert-or-update: a new key ?1 is inserted with ?2; an existing key ?1 has its row re-keyed to ?3 with data ?4; all other rows are unchanged; when ?3 is ?1 and ?4 is ?2 the result is the map update at ?1 |
| Mapper.Stored | src/main/java/gg/amy/pgorm/PgMapper.java:96-116 | a save that issued nothing leaves the table as it was; one that issued its upsert leaves what the upsert makes of it |
| Mapper.UpsertIsMapUpdate | src/main/java/gg/amy/pgorm/PgMapper.java:103-108 | with those bindings, the insert-or-update stores the document under the key whether or not a row was there |
| Mapper.UpsertConflictsOnKeyColumn | src/main/java/gg/amy/pgorm/PgMapper.java:103-104 | the upsert inserts into the key column and `data`, and its conflict target is the key column |
| Mapper.SaveUpdatesOnlyItsKey | src/main/java/gg/amy/pgorm/PgMapper.java:99-110 | a successful save sets the entity's key to its document and leaves every other row as it was |
| Mapper.SaveFailureIsDropped | src/main/java/gg/amy/pgorm/PgMapper.java:111-115 | a save whose key or encoding fails changes no row |
| Mapper.SelectByKeyColumn | src/main/java/gg/amy/pgorm/PgMapper.java:120 | load's query starts with `SELECT * FROM <table> WHERE <key column> = ?` |
| Mapper.LoadStatement | src/main/java/gg/amy/pgorm/PgMapper.java:120-121 | load's statement selects from the mapper's table where the key column equals parameter 1, and binds the key as its only parameter |
| Mapper.Load | src/main/java/gg/amy/pgorm/PgMapper.java:118-134 | load looks up the row LoadStatement selects, the one whose key is the given key; it is empty for a missing key, and also when the stored document fails to decode or decodes to null; otherwise it is the decoded document |
| Mapper.SaveThenLoad | src/test/java/gg/amy/pgorm/PgMapperTest.java:66-81 | if the entity's encoding decodes back to it, loading its key after saving it returns it |
| Mapper.LaterSaveWins | src/main/java/gg/amy/pgorm/PgMapper.java:103-108 | after two saves under one key, load returns the second entity, whether or not the first save succeeded |
| Mapper.SaveLeavesOtherKeys | src/main/java/gg/amy/pgorm/PgMapper.java:103-108 | a save, successful or not, does not change what loading any key other than the entity's returns |
| Store.BuildConfig | src/main/java/gg/amy/pgorm/PgStore.java:62-71 | the pool configuration carries the URL, user and password and exactly the three cache properties `true`, `250`, `2048` |
| Store.PgStore.constructor | src/main/java/gg/amy/pgorm/PgStore.java:58-60 | a new store keeps the given configuration, has no pool, is not connected and has no mappers |
| Store.PgStore.FromCredentials | src/main/java/gg/amy/pgorm/PgStore.java:54-56 | the credentials constructor is the configuration constructor applied to BuildConfig |
| Store.PgStore.Connect | src/main/java/gg/amy/pgorm/PgStore.java:78-84 | afterwards the store is connected; an already connected store keeps its pool; otherwise a pool on the store's configuration is opened |
| Store.PgStore.Disconnect | src/main/java/gg/amy/pgorm/PgStore.java:86-92 | afterwards the store is not connected; an unconnected store is unchanged; otherwise its pool is closed |
| Store.PgStore.Sql | src/main/java/gg/amy/pgorm/PgStore.java:142-145 | the statement is appended to what the store has executed |
| Store.PgStore.MapSync | src/main/java/gg/amy/pgorm/PgStore.java:94-105 | the result is what init derives for the class; a registered class changes nothing and issues nothing; a new class is registered and bootstrapped exactly on success; a failing class is not registered and issues nothing |
| Store.PgStore.MapAsync | src/main/java/gg/amy/pgorm/PgStore.java:107-119 | the result wraps the derived mapper, or carries its error; a registered class changes nothing; otherwise both registries gain the class, and only a class new to the sync registry is bootstrapped |
| Store.MapperTestLifecycle | src/test/java/gg/amy/pgorm/PgMapperTest.java:36-53 | the test's setup and teardown execute exactly the CREATE TABLE, the whole-document GIN index and the DROP TABLE, in that order (mapping the class a second time executes nothing), and leave the store disconnected |
| Query.SymbolsDistinct | src/main/java/gg/amy/pgorm/query/QueryBuilder.java:64-74 | the three comparisons GT, LT, EQ render as three different operators |
| Query.OrderKeywordsDistinct | src/main/java/gg/amy/pgorm/query/QueryBuilder.java:53-62 | ASCENDING and DESCENDING render as different keywords |
| Query.QueryBuilder.constructor | src/main/java/gg/amy/pgorm/query/QueryBuilder.java:18-21 | the query starts as `SELECT DATA FROM <table> ` |
| Query.QueryBuilder.Where | src/main/java/gg/amy/pgorm/query/QueryBuilder.java:23-26 | appends exactly ` WHERE `, records the call, returns the same builder |
| Query.QueryBuilder.Has | src/main/java/gg/amy/pgorm/query/QueryBuilder.java:28-31 | appends exactly ` data-><field> IS NOT NULL `, records the call, returns the same builder |
| Query.QueryBuilder.And | src/main/java/gg/amy/pgorm/query/QueryBuilder.java:33-36 | appends exactly ` AND `, records the call, returns the same builder |
| Query.QueryBuilder.CompareValue | src/main/java/gg/amy/pgorm/query/QueryBuilder.java:38-41 | appends the cast field, the comparison's symbol (`>`, `<`, `=`) and the value; records the call; returns the same builder |
| Query.QueryBuilder.CompareField | src/main/java/gg/amy/pgorm/query/QueryBuilder.java:43-46 | appends two cast fields around the comparison's symbol, records the call, returns the same builder |
| Query.QueryBuilder.Order | src/main/java/gg/amy/pgorm/query/QueryBuilder.java:48-55 | appends ` ORDER BY ` with the cast field and `ASC` or `DESC`, records the call, returns the same builder |
| Query.FragmentsAppend | src/main/java/gg/amy/pgorm/query/QueryBuilder.java:23-51 | the text of two runs of calls is the text of the first run followed by that of the second |
| Query.RenderStep | src/main/java/gg/amy/pgorm/query/QueryBuilder.java:23-51 | one more call appends its own fragment to the query |
| Query.QueryOnlyGrows | src/main/java/gg/amy/pgorm/query/QueryBuilder.java:23-51 | the query before more calls is a prefix of the query after them |
| Query.FragmentPosition | src/main/java/gg/amy/pgorm/query/QueryBuilder.java:23-51 | each call's fragment sits in the final query right after the query of the calls before it |
| Query.CallOrder | src/main/java/gg/amy/pgorm/query/QueryBuilder.java:23-51 | an earlier call's fragment ends before a later call's fragment begins |
| Query.WidgetsQuery | src/main/java/gg/amy/pgorm/query/QueryBuilder.java:18-51 | the widgets chain yields the query of its five calls, in call order |
| Query.WidgetsFragments | src/main/java/gg/amy/pgorm/query/QueryBuilder.java:23-51 | the widgets chain's five calls append ` WHERE `, ` data->name IS NOT NULL `, ` AND `, the `age > 18` comparison and the ascending ORDER BY on `age`, in that order |
| Query.WidgetsQueryInOrder | src/main/java/gg/amy/pgorm/query/QueryBuilder.java:18-51 | in the widgets query on any table, each call's fragment occurs in the query text where the query of the calls before it ends, and ends before the next call's fragment begins |

## Left out

- JDBC, Hikari and PostgreSQL themselves. The model does not include connections, prepared statements or result sets beyond their parameters. Executed statements are recorded in a ghost log. The database's behaviour for the upsert is the map semantics of `ApplyUpsert`. `IF NOT EXISTS` is stated only as text.
- `PgStore.sql` error handling: the overloads that take a consumer, their try-with-resources, and the logging and swallowing of SQLException. They are folded into `Sql`, which always records its statement.
- The NullPointerException that `sql` raises on a store that was never connected. `Sql` has no precondition on the connection, and the mapper test always connects first.
- `PgStore.fromEnv`. It reads environment variables, which are I/O. Its result is `FromCredentials` on whatever the variables hold.
- `AsyncPgMapper`'s thread pool and futures. This is concurrency. The model keeps only that it wraps the synchronous mapper.
- The race between the `containsKey` check and the `put` in `mapSync` and `mapAsync` under concurrent callers. The model is sequential.
- Java reflection, `setAccessible` and the annotation classes. The `EntityClass` descriptor replaces them. `BtreeIndex.java` is not part of this model. Its role, a list of field names, is inferred from its use in `init`.
- `@Index`. No mapper code reads it.
- Jackson's JSON encoding and decoding, and reading the key field. `Codec` stands for them, with failure modelled as `None`.
- Mapper.SaveThenLoad: its hypothesis `decode(encode(v)) == Some(v)` is about the encoder's text read back verbatim. In PostgreSQL, `save` stores `to_jsonb(?::jsonb)`, and `load` reads back PostgreSQL's rendering of that JSONB value, which can differ in whitespace and key order. The round trip therefore also assumes that the decoder accepts that rendering.
- `loadFromResultSet` when `getString` throws SQLException. It becomes a decode failure, which is what `load` turns it into.
- Logging through slf4j. Logging has no effect on the modelled state.
- The query builder's `mapper` field. It is kept but never read, as in the source.
- Schema.MapperTestCorrect: names the test class's two bootstrap statements through `CreateTableSql` and `GinDataIndexSql` rather than as literal strings.
