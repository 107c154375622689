/** The mapper's operations (src/main/java/gg/amy/pgorm/PgMapper.java):
    `init`, which checks the entity class and bootstraps its table, and
    `save`/`load`, which move an entity to and from its JSONB row.

    The table a mapper reads and writes is modelled as a map from key
    values to the JSON text stored in the `data` column; the JSON encoder
    and decoder and the reading of the key field are parameters (`Codec`),
    since they belong to libraries outside this model. */
module Mapper {
  import opened Wrappers
  import opened Text
  import opened Schema

  /** `init`, run by the PgMapper constructor. Returns the mapper (or the
      configuration error it throws) and the statements it passes to the
      store, in the order it passes them. */
  method Init(c: EntityClass) returns (r: Result<PgMapper, InitError>, issued: seq<string>)
    ensures r == Derive(c)
    ensures r.Failure? ==> issued == []
    ensures r.Success? ==> issued == Bootstrap(r.value)
  {
    issued := [];
    // @Table is required
    if c.table.None? {
      return Failure(NoTable(c.name)), issued;
    }
    var table := c.table.value;
    // the last field carrying @PrimaryKey is the key
    var havePk := false;
    var pkField: nat := 0;
    var i := 0;
    while i < |c.fields|
      invariant 0 <= i <= |c.fields|
      invariant havePk == LastPrimaryKey(c.fields[..i]).Some?
      invariant havePk ==> pkField == LastPrimaryKey(c.fields[..i]).value
    {
      assert c.fields[..i + 1][..i] == c.fields[..i];
      if c.fields[i].primaryKey.Some? {
        havePk := true;
        pkField := i;
      }
      i := i + 1;
    }
    assert c.fields[..i] == c.fields;
    if !havePk {
      return Failure(NoPrimaryKey(c.name)), issued;
    }
    // the key's Java type must have an SQL column type
    var sqlType: SqlType;
    match TypeToSqlType(c.fields[pkField].javaType) {
      case Failure(e) =>
        return Failure(e), issued;
      case Success(t) =>
        sqlType := t;
    }
    var column := c.fields[pkField].primaryKey.value;
    // the table, then one B-tree index per listed field
    var create := CreateTableSql(table, column, sqlType);
    issued := issued + [create];
    for j := 0 to |c.btree|
      invariant issued == [create] + BtreeStatements(table, c.btree[..j])
    {
      assert c.btree[..j + 1][..j] == c.btree[..j];
      issued := issued + [BtreeIndexSql(table, c.btree[j])];
    }
    assert c.btree[..|c.btree|] == c.btree;
    // the whole-document GIN index, then one GIN index per listed field
    issued := issued + [GinDataIndexSql(table)];
    ghost var before := issued;
    for j := 0 to |c.gin|
      invariant issued == before + GinStatements(table, c.gin[..j])
    {
      assert c.gin[..j + 1][..j] == c.gin[..j];
      issued := issued + [GinIndexSql(table, c.gin[j])];
    }
    assert c.gin[..|c.gin|] == c.gin;
    r := Success(PgMapper(c, table, pkField, column, sqlType));
  }

  // ---------------------------------------------------------------------
  // save and load

  /** A positional parameter of a prepared statement: `setObject` with a
      key value or `setString` with a JSON text. */
  datatype Param<K> = ObjectParam(key: K) | StringParam(text: string)

  /** A prepared statement: its SQL text and its parameters 1, 2, ... */
  datatype Statement<K> = Statement(sql: string, params: seq<Param<K>>)

  /** The collaborators `save` and `load` rely on: reading the key field of
      an entity (which may throw IllegalAccessException), encoding an entity
      as JSON (which may throw JsonProcessingException), and decoding a
      stored document (which may throw, or yield null; both are None). */
  datatype Codec<!V, K> = Codec(
    readKey: V -> Option<K>,
    encode: V -> Option<string>,
    decode: string -> Option<V>)

  function UpsertSql(m: PgMapper): string {
    "INSERT INTO " + m.table + " (" + m.pkColumn + ", data) values (?, to_jsonb(?::jsonb)) " +
    "ON CONFLICT (" + m.pkColumn + ")" + " DO UPDATE SET " + m.pkColumn + " = ?, data = to_jsonb(?::jsonb);"
  }

  function SelectSql(m: PgMapper): string {
    "SELECT * FROM " + m.table + " WHERE " + m.pkColumn + " = ?;"
  }

  /** The select reads every column of the mapper's table, filtered on the
      key column being equal to parameter 1. */
  lemma SelectByKeyColumn(m: PgMapper)
    ensures StartsWith(SelectSql(m), "SELECT * FROM " + m.table + " WHERE " + m.pkColumn + " = ?")
  {
    var p := "SELECT * FROM " + m.table + " WHERE " + m.pkColumn;
    AppendAssoc(p, " = ?", ";");
    assert " = ?" + ";" == " = ?;";
    StartsWithAppend(p + " = ?", ";");
  }

  /** The upsert's parameters: the key, the document, the key, the document. */
  function UpsertParams<K>(key: K, json: string): seq<Param<K>> {
    [ObjectParam(key), StringParam(json), ObjectParam(key), StringParam(json)]
  }

  /** What `save` did: issued its upsert, or logged an error and issued nothing. */
  datatype SaveOutcome<K> =
    | Saved(statement: Statement<K>)
    | KeyNotReadable     // IllegalAccessException, logged
    | NotEncodable       // JsonProcessingException, logged

  /** `save`: read the key, encode the entity, then issue one upsert with
      the parameters bound in the order key, document, key, document. */
  function Save<V, K>(m: PgMapper, codec: Codec<V, K>, entity: V): (r: SaveOutcome<K>)
    ensures r.Saved? <==> codec.readKey(entity).Some? && codec.encode(entity).Some?
    ensures codec.readKey(entity).None? ==> r == KeyNotReadable
    ensures codec.readKey(entity).Some? && codec.encode(entity).None? ==> r == NotEncodable
    ensures r.Saved? ==>
      && r.statement.sql == UpsertSql(m)
      && |r.statement.params| == 4
      && r.statement.params[0] == r.statement.params[2] == ObjectParam(codec.readKey(entity).value)
      && r.statement.params[1] == r.statement.params[3] == StringParam(codec.encode(entity).value)
  {
    match codec.readKey(entity)
    case None => KeyNotReadable
    case Some(pk) =>
      match codec.encode(entity)
      case None => NotEncodable
      case Some(json) => Saved(Statement(UpsertSql(m), UpsertParams(pk, json)))
  }

  /** A well-formed upsert parameter list. */
  predicate UpsertShaped<K>(params: seq<Param<K>>) {
    && |params| == 4
    && params[0].ObjectParam? && params[1].StringParam?
    && params[2].ObjectParam? && params[3].StringParam?
  }

  /** What the upsert does to the table: insert the row (?1, ?2); if a row
      with key ?1 is already there, set that row's key to ?3 and its data
      to ?4 instead. */
  function ApplyUpsert<K>(rows: map<K, string>, params: seq<Param<K>>): (r: map<K, string>)
    requires UpsertShaped(params)
    ensures params[0].key !in rows ==> r == rows[params[0].key := params[1].text]
    ensures params[0].key in rows ==>
      && params[2].key in r && r[params[2].key] == params[3].text
      && (params[0].key != params[2].key ==> params[0].key !in r)
    ensures forall k | k in rows && k != params[0].key && k != params[2].key :: k in r && r[k] == rows[k]
    ensures forall k | k in r && k != params[0].key && k != params[2].key :: k in rows
    ensures params[0].key == params[2].key && params[1].text == params[3].text ==>
      r == rows[params[0].key := params[1].text]
  {
    var k := params[0].key;
    if k in rows then
      var r := (rows - {k})[params[2].key := params[3].text];
      assert params[2].key == k && params[3].text == params[1].text ==> r.Keys == rows[k := params[1].text].Keys;
      r
    else rows[k := params[1].text]
  }

  /** The table after `save` has run. */
  function Stored<K>(rows: map<K, string>, r: SaveOutcome<K>): (s: map<K, string>)
    requires r.Saved? ==> UpsertShaped(r.statement.params)
    ensures !r.Saved? ==> s == rows
    ensures r.Saved? ==> s == ApplyUpsert(rows, r.statement.params)
  {
    if r.Saved? then ApplyUpsert(rows, r.statement.params) else rows
  }

  /** `load`'s query, with the key bound as parameter 1. */
  function LoadStatement<K>(m: PgMapper, pk: K): (s: Statement<K>)
    ensures StartsWith(s.sql, "SELECT * FROM " + m.table + " WHERE " + m.pkColumn + " = ?")
    ensures |s.params| == 1 && s.params[0].ObjectParam? && s.params[0].key == pk
  {
    SelectByKeyColumn(m);
    Statement(SelectSql(m), [ObjectParam(pk)])
  }

  /** `load`: run LoadStatement and decode the document of the row it
      selects, the row whose key is parameter 1; empty when no row matches
      and when the document does not decode. */
  function Load<V, K>(m: PgMapper, codec: Codec<V, K>, rows: map<K, string>, pk: K): (r: Option<V>)
    ensures pk !in rows ==> r.None?
    ensures r.Some? <==> pk in rows && codec.decode(rows[pk]).Some?
    ensures r.Some? ==> r == codec.decode(rows[pk])
  {
    var selected := LoadStatement(m, pk).params[0].key;
    if selected in rows then codec.decode(rows[selected]) else None
  }

  // ---------------------------------------------------------------------
  // Properties of save and load

  /** Because the key is bound both as the inserted key and as the updated
      key, the upsert stores the document under that key whether or not a
      row was there: it is an ordinary map update. */
  lemma UpsertIsMapUpdate<K>(rows: map<K, string>, key: K, json: string)
    ensures UpsertShaped(UpsertParams(key, json))
    ensures ApplyUpsert(rows, UpsertParams(key, json)) == rows[key := json]
  {
  }

  /** The upsert inserts into the key column and the `data` column, and its
      conflict target is the key column. */
  lemma UpsertConflictsOnKeyColumn(m: PgMapper)
    ensures StartsWith(UpsertSql(m),
      "INSERT INTO " + m.table + " (" + m.pkColumn + ", data) values (?, to_jsonb(?::jsonb)) ")
    ensures Contains(UpsertSql(m), "ON CONFLICT (" + m.pkColumn + ")")
  {
    var s := UpsertSql(m);
    var insert := "INSERT INTO " + m.table + " (" + m.pkColumn + ", data) values (?, to_jsonb(?::jsonb)) ";
    var conflict := "ON CONFLICT (" + m.pkColumn + ")";
    var update := " DO UPDATE SET " + m.pkColumn + " = ?, data = to_jsonb(?::jsonb);";
    assert s == insert + conflict + update;
    StartsWithConcat(insert, conflict, update);
    PrefixContains(s, insert, conflict, update);
  }

  /** A save that succeeds writes the entity's document under the entity's
      key and leaves every other row as it was. */
  lemma SaveUpdatesOnlyItsKey<V, K>(m: PgMapper, codec: Codec<V, K>, rows: map<K, string>, entity: V)
    requires codec.readKey(entity).Some? && codec.encode(entity).Some?
    ensures Save(m, codec, entity).Saved?
    ensures Stored(rows, Save(m, codec, entity)) == rows[codec.readKey(entity).value := codec.encode(entity).value]
  {
    UpsertIsMapUpdate(rows, codec.readKey(entity).value, codec.encode(entity).value);
  }

  /** A save whose key cannot be read or whose entity cannot be encoded
      issues nothing and leaves the table as it was. */
  lemma SaveFailureIsDropped<V, K>(m: PgMapper, codec: Codec<V, K>, rows: map<K, string>, entity: V)
    requires codec.readKey(entity).None? || codec.encode(entity).None?
    ensures !Save(m, codec, entity).Saved?
    ensures Stored(rows, Save(m, codec, entity)) == rows
  {
  }

  /** The round trip: if decoding the entity's encoding gives the entity
      back, loading its key after saving it returns it. */
  lemma SaveThenLoad<V, K>(m: PgMapper, codec: Codec<V, K>, rows: map<K, string>, entity: V)
    requires codec.readKey(entity).Some? && codec.encode(entity).Some?
    requires codec.decode(codec.encode(entity).value) == Some(entity)
    ensures Load(m, codec, Stored(rows, Save(m, codec, entity)), codec.readKey(entity).value) == Some(entity)
  {
    SaveUpdatesOnlyItsKey(m, codec, rows, entity);
  }

  /** Saving two entities with the same key keeps only the later one,
      whatever became of the first save. */
  lemma LaterSaveWins<V, K>(m: PgMapper, codec: Codec<V, K>, rows: map<K, string>, first: V, second: V)
    requires codec.readKey(second).Some? && codec.encode(second).Some?
    requires codec.readKey(first) == codec.readKey(second)
    requires codec.decode(codec.encode(second).value) == Some(second)
    ensures var afterFirst := Stored(rows, Save(m, codec, first));
      Load(m, codec, Stored(afterFirst, Save(m, codec, second)), codec.readKey(second).value) == Some(second)
  {
    SaveThenLoad(m, codec, Stored(rows, Save(m, codec, first)), second);
  }

  /** Saving an entity does not change what loading any key other than the
      entity's returns, whether or not the save succeeds. */
  lemma SaveLeavesOtherKeys<V, K>(m: PgMapper, codec: Codec<V, K>, rows: map<K, string>, entity: V, other: K)
    requires codec.readKey(entity) != Some(other)
    ensures Load(m, codec, Stored(rows, Save(m, codec, entity)), other) == Load(m, codec, rows, other)
  {
    if codec.readKey(entity).Some? && codec.encode(entity).Some? {
      SaveUpdatesOnlyItsKey(m, codec, rows, entity);
    }
  }
}
