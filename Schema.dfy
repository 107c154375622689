/** The schema a mapper derives from an entity class, and the DDL text it
    issues to create the class's table and indexes (src/main/java/gg/amy/pgorm/PgMapper.java).

    The Java code reads the class by reflection; here the class is an
    explicit descriptor, `EntityClass`, holding exactly what that reflection
    looks at: the class name, the `@Table` value (if any), the declared
    fields in the order reflection lists them (usually declaration order;
    each with its Java type and, when it
    carries `@PrimaryKey`, the annotation's column name), the `@BtreeIndex`
    field list and the `@GIndex` field list. */
module Schema {
  import opened Wrappers
  import opened Text

  /** The name of a class other than the five `typeToSqlType` maps. */
  type OtherClassName = n: string
    | n != "java.lang.String" && n != "java.lang.Integer" && n != "int" && n != "java.lang.Long" && n != "long"
    witness "java.lang.Object"

  /** The Java class of a field, as far as `typeToSqlType` tells them apart. */
  datatype JavaType =
    | StringClass        // java.lang.String
    | IntegerClass       // java.lang.Integer
    | IntPrimitive       // int
    | LongClass          // java.lang.Long
    | LongPrimitive      // long
    | OtherClass(className: OtherClassName)

  /** `Class.getName()` of a Java type. */
  function JavaTypeName(t: JavaType): string {
    match t
    case StringClass => "java.lang.String"
    case IntegerClass => "java.lang.Integer"
    case IntPrimitive => "int"
    case LongClass => "java.lang.Long"
    case LongPrimitive => "long"
    case OtherClass(n) => n
  }

  /** Two Java types are the same class exactly when their names agree, so
      comparing descriptors is comparing `Class` objects. */
  lemma JavaTypeNameInjective(a: JavaType, b: JavaType)
    ensures JavaTypeName(a) == JavaTypeName(b) <==> a == b
  {
    if JavaTypeName(a) == JavaTypeName(b) {
      match a
      case OtherClass(n) => assert JavaTypeName(b) == n;
      case _ => assert |JavaTypeName(a)| == |JavaTypeName(b)|;
    }
  }

  /** The SQL column types a primary key can have. */
  datatype SqlType = TEXT | INT | BIGINT

  function SqlTypeName(t: SqlType): string {
    match t
    case TEXT => "TEXT"
    case INT => "INT"
    case BIGINT => "BIGINT"
  }

  /** The column name `@PrimaryKey` uses when none is given. */
  const DefaultPkColumn: string := "id"

  /** A declared field. `primaryKey` is `Some(column)` exactly when the field
      carries `@PrimaryKey`, `column` being the annotation's value. */
  datatype FieldDecl = FieldDecl(name: string, javaType: JavaType, primaryKey: Option<string>)

  /** A field without `@PrimaryKey`. */
  function PlainField(name: string, t: JavaType): (f: FieldDecl)
    ensures f.primaryKey.None?
  {
    FieldDecl(name, t, None)
  }

  /** What reflection reads from a mapped class. An absent `@BtreeIndex` or
      `@GIndex` annotation is the empty list: both produce no statements. */
  datatype EntityClass = EntityClass(
    name: string,
    table: Option<string>,
    fields: seq<FieldDecl>,
    btree: seq<string>,
    gin: seq<string>)

  /** The configuration errors `init` throws. */
  datatype InitError =
    | NoTable(className: string)
    | NoPrimaryKey(className: string)
    | NoSqlType(javaType: JavaType)

  datatype ExceptionClass = IllegalStateException | IllegalArgumentException

  /** The Java exception class each error is thrown as. */
  function ExceptionOf(e: InitError): ExceptionClass {
    match e
    case NoTable(_) => IllegalStateException
    case NoPrimaryKey(_) => IllegalStateException
    case NoSqlType(_) => IllegalArgumentException
  }

  /** The message each exception carries. */
  function Message(e: InitError): string {
    match e
    case NoTable(n) => "Got class " + n + " to map, but it has no @Table!?"
    case NoPrimaryKey(n) => "Class " + n + " has no @PrimaryKey!?"
    case NoSqlType(t) => "No SQL type mapping known for class of type: " + JavaTypeName(t)
  }

  /** The SQL type of a primary-key field's Java type; any other type is
      refused with an IllegalArgumentException. */
  function TypeToSqlType(t: JavaType): (r: Result<SqlType, InitError>)
    ensures r == Success(TEXT) <==> t == StringClass
    ensures r == Success(INT) <==> t == IntegerClass || t == IntPrimitive
    ensures r == Success(BIGINT) <==> t == LongClass || t == LongPrimitive
    ensures r.Failure? <==> t.OtherClass?
    ensures r.Failure? ==> r.error == NoSqlType(t) && ExceptionOf(r.error) == IllegalArgumentException
  {
    match t
    case StringClass => Success(TEXT)
    case IntegerClass => Success(INT)
    case IntPrimitive => Success(INT)
    case LongClass => Success(BIGINT)
    case LongPrimitive => Success(BIGINT)
    case OtherClass(_) => Failure(NoSqlType(t))
  }

  /** No declared field carries `@PrimaryKey`. */
  ghost predicate NoneAnnotated(fields: seq<FieldDecl>) {
    forall j :: 0 <= j < |fields| ==> fields[j].primaryKey.None?
  }

  /** Field `k` is the last field, in declaration order, carrying `@PrimaryKey`. */
  ghost predicate IsLastPrimaryKey(fields: seq<FieldDecl>, k: int) {
    && 0 <= k < |fields|
    && fields[k].primaryKey.Some?
    && forall j :: k < j < |fields| ==> fields[j].primaryKey.None?
  }

  /** The field the primary-key scan settles on: since every annotated field
      overwrites the previous choice, it is the last annotated one. */
  function LastPrimaryKey(fields: seq<FieldDecl>): (r: Option<nat>)
    ensures r.None? <==> NoneAnnotated(fields)
    ensures r.Some? ==> IsLastPrimaryKey(fields, r.value)
  {
    if |fields| == 0 then None
    else if fields[|fields| - 1].primaryKey.Some? then Some(|fields| - 1)
    else LastPrimaryKey(fields[..|fields| - 1])
  }

  /** A mapper after `init` succeeded: the class, its table, the primary-key
      field (its position among the declared fields), the key column and the
      key's SQL type. */
  datatype PgMapper = PgMapper(
    entity: EntityClass,
    table: string,
    pkField: nat,
    pkColumn: string,
    keyType: SqlType)

  /** The outcome of `init`, checks in the source's order: the table
      annotation, then the primary-key scan, then the key's type. */
  function Derive(c: EntityClass): (r: Result<PgMapper, InitError>)
    ensures c.table.None? ==> r == Failure(NoTable(c.name))
    ensures c.table.Some? && NoneAnnotated(c.fields) ==> r == Failure(NoPrimaryKey(c.name))
    ensures forall k :: c.table.Some? && IsLastPrimaryKey(c.fields, k) ==>
      (r.Failure? <==> c.fields[k].javaType.OtherClass?) &&
      (r.Failure? ==> r.error == NoSqlType(c.fields[k].javaType))
    ensures r.Success? ==>
      && r.value.entity == c
      && c.table == Some(r.value.table)
      && IsLastPrimaryKey(c.fields, r.value.pkField)
      && c.fields[r.value.pkField].primaryKey == Some(r.value.pkColumn)
      && TypeToSqlType(c.fields[r.value.pkField].javaType) == Success(r.value.keyType)
  {
    if c.table.None? then Failure(NoTable(c.name))
    else
      match LastPrimaryKey(c.fields)
      case None => Failure(NoPrimaryKey(c.name))
      case Some(k) =>
        match TypeToSqlType(c.fields[k].javaType)
        case Failure(e) => Failure(e)
        case Success(t) => Success(PgMapper(c, c.table.value, k, c.fields[k].primaryKey.value, t))
  }

  // ---------------------------------------------------------------------
  // DDL text

  /** The keyword pair every bootstrap statement carries. */
  const IfNotExists: string := " IF NOT EXISTS "

  function CreateTableSql(table: string, column: string, t: SqlType): string {
    "CREATE TABLE IF NOT EXISTS " + table + " (" +
    column + " " + SqlTypeName(t) + " PRIMARY KEY NOT NULL UNIQUE," +
    "data JSONB" +
    ");"
  }

  /** `CREATE INDEX IF NOT EXISTS <name> ON <table> USING <indexMethod>`. */
  function CreateIndexSql(name: string, table: string, indexMethod: string): string {
    "CREATE INDEX IF NOT EXISTS " + name + " ON " + table + " USING " + indexMethod
  }

  function BtreeIndexName(table: string, field: string): string {
    "idx_btree_" + table + "_" + field
  }

  function BtreeIndexSql(table: string, field: string): string {
    CreateIndexSql(BtreeIndexName(table, field), table, "BTREE ((data->'" + field + "'));")
  }

  function GinDataIndexName(table: string): string {
    "idx_gin_" + table + "_data"
  }

  function GinDataIndexSql(table: string): string {
    CreateIndexSql(GinDataIndexName(table), table, "GIN (data);")
  }

  function GinIndexName(table: string, field: string): string {
    "idx_gin_" + table + "_" + field
  }

  function GinIndexSql(table: string, field: string): string {
    CreateIndexSql(GinIndexName(table, field), table, "GIN ((data->'" + field + "'));")
  }

  function BtreeStatements(table: string, fields: seq<string>): seq<string> {
    seq(|fields|, i requires 0 <= i < |fields| => BtreeIndexSql(table, fields[i]))
  }

  function GinStatements(table: string, fields: seq<string>): seq<string> {
    seq(|fields|, i requires 0 <= i < |fields| => GinIndexSql(table, fields[i]))
  }

  /** The statements a successful `init` issues, in order: the table, one
      B-tree index per `@BtreeIndex` entry, the GIN index on the whole
      document, one GIN index per `@GIndex` entry. */
  function Bootstrap(m: PgMapper): (r: seq<string>)
    ensures |r| == 2 + |m.entity.btree| + |m.entity.gin|
    ensures r[0] == CreateTableSql(m.table, m.pkColumn, m.keyType)
    ensures forall i :: 0 <= i < |m.entity.btree| ==> r[1 + i] == BtreeIndexSql(m.table, m.entity.btree[i])
    ensures r[1 + |m.entity.btree|] == GinDataIndexSql(m.table)
    ensures forall i :: 0 <= i < |m.entity.gin| ==>
      r[2 + |m.entity.btree| + i] == GinIndexSql(m.table, m.entity.gin[i])
  {
    [CreateTableSql(m.table, m.pkColumn, m.keyType)]
    + BtreeStatements(m.table, m.entity.btree)
    + [GinDataIndexSql(m.table)]
    + GinStatements(m.table, m.entity.gin)
  }

  /** The names of the indexes Bootstrap creates, in the order it creates them. */
  function IndexNames(m: PgMapper): (r: seq<string>)
    ensures |r| == 1 + |m.entity.btree| + |m.entity.gin|
  {
    seq(|m.entity.btree|, i requires 0 <= i < |m.entity.btree| => BtreeIndexName(m.table, m.entity.btree[i]))
    + [GinDataIndexName(m.table)]
    + seq(|m.entity.gin|, i requires 0 <= i < |m.entity.gin| => GinIndexName(m.table, m.entity.gin[i]))
  }

  ghost predicate NoDuplicates<T>(s: seq<T>) {
    forall i, j :: 0 <= i < j < |s| ==> s[i] != s[j]
  }

  // ---------------------------------------------------------------------
  // Properties of the DDL text

  /** Where `IF NOT EXISTS` sits in the two statement keywords. */
  lemma TableKeyword()
    ensures "CREATE TABLE IF NOT EXISTS " == "CREATE TABLE" + IfNotExists + ""
  {
  }

  lemma IndexKeyword()
    ensures "CREATE INDEX IF NOT EXISTS " == "CREATE INDEX" + IfNotExists + ""
  {
  }

  /** The shape of one CREATE INDEX statement. */
  lemma CreateIndexShape(name: string, table: string, indexMethod: string)
    ensures StartsWith(CreateIndexSql(name, table, indexMethod), "CREATE INDEX IF NOT EXISTS " + name + " ON " + table + " USING ")
    ensures StartsWith(CreateIndexSql(name, table, indexMethod), "CREATE INDEX IF NOT EXISTS ")
    ensures Contains(CreateIndexSql(name, table, indexMethod), IfNotExists)
  {
    var s := CreateIndexSql(name, table, indexMethod);
    var head := "CREATE INDEX IF NOT EXISTS " + name + " ON " + table + " USING ";
    StartsWithAppend(head, indexMethod);
    var k := "CREATE INDEX IF NOT EXISTS ";
    StartsWithAppend(k, name);
    StartsWithExtend(k + name, k, " ON ");
    StartsWithExtend(k + name + " ON ", k, table);
    StartsWithExtend(k + name + " ON " + table, k, " USING ");
    StartsWithTransitive(s, head, k);
    IndexKeyword();
    PrefixContains(s, "CREATE INDEX", IfNotExists, "");
  }

  /** The shape of the CREATE TABLE statement: the key column is named with
      the annotation's column and typed with the mapped SQL type, and the
      document column is the JSONB column `data`. */
  lemma CreateTableShape(table: string, column: string, t: SqlType)
    ensures StartsWith(CreateTableSql(table, column, t), "CREATE TABLE IF NOT EXISTS ")
    ensures StartsWith(CreateTableSql(table, column, t),
      "CREATE TABLE IF NOT EXISTS " + table + " (" + column + " " + SqlTypeName(t) + " PRIMARY KEY NOT NULL UNIQUE,")
    ensures Contains(CreateTableSql(table, column, t), IfNotExists)
    ensures Contains(CreateTableSql(table, column, t), "data JSONB")
  {
    var s := CreateTableSql(table, column, t);
    var head := "CREATE TABLE IF NOT EXISTS " + table + " (" + column + " " + SqlTypeName(t) + " PRIMARY KEY NOT NULL UNIQUE,";
    StartsWithAppend(head + "data JSONB", ");");
    StartsWithAppend(head, "data JSONB");
    PrefixContains(s, head, "data JSONB", "");
    var k := "CREATE TABLE IF NOT EXISTS ";
    StartsWithAppend(k, table);
    StartsWithExtend(k + table, k, " (");
    StartsWithExtend(k + table + " (", k, column);
    StartsWithExtend(k + table + " (" + column, k, " ");
    StartsWithExtend(k + table + " (" + column + " ", k, SqlTypeName(t));
    StartsWithExtend(k + table + " (" + column + " " + SqlTypeName(t), k, " PRIMARY KEY NOT NULL UNIQUE,");
    StartsWithTransitive(s, head, k);
    TableKeyword();
    PrefixContains(s, "CREATE TABLE", IfNotExists, "");
  }

  /** Every statement of the bootstrap is a CREATE ... IF NOT EXISTS: the
      first creates the table, each later one creates the index IndexNames
      lists at its place. */
  lemma BootstrapIsIdempotentDdl(m: PgMapper)
    ensures forall k :: 0 <= k < |Bootstrap(m)| ==> Contains(Bootstrap(m)[k], IfNotExists)
    ensures StartsWith(Bootstrap(m)[0], "CREATE TABLE IF NOT EXISTS ")
    ensures forall k :: 1 <= k < |Bootstrap(m)| ==>
      && StartsWith(Bootstrap(m)[k], "CREATE INDEX IF NOT EXISTS ")
      && StartsWith(Bootstrap(m)[k], "CREATE INDEX IF NOT EXISTS " + IndexNames(m)[k - 1] + " ON " + m.table + " USING ")
  {
    CreateTableShape(m.table, m.pkColumn, m.keyType);
    forall k | 1 <= k < |Bootstrap(m)|
      ensures Contains(Bootstrap(m)[k], IfNotExists)
      ensures StartsWith(Bootstrap(m)[k], "CREATE INDEX IF NOT EXISTS ")
      ensures StartsWith(Bootstrap(m)[k], "CREATE INDEX IF NOT EXISTS " + IndexNames(m)[k - 1] + " ON " + m.table + " USING ")
    {
      BootstrapIndexShape(m, k);
    }
  }

  /** The statement at position `k` after the CREATE TABLE creates the index
      named at position `k - 1` of IndexNames. */
  lemma BootstrapIndexShape(m: PgMapper, k: nat)
    requires 1 <= k < |Bootstrap(m)|
    ensures Contains(Bootstrap(m)[k], IfNotExists)
    ensures StartsWith(Bootstrap(m)[k], "CREATE INDEX IF NOT EXISTS ")
    ensures StartsWith(Bootstrap(m)[k], "CREATE INDEX IF NOT EXISTS " + IndexNames(m)[k - 1] + " ON " + m.table + " USING ")
  {
    var b, g := m.entity.btree, m.entity.gin;
    var name := IndexNames(m)[k - 1];
    if k <= |b| {
      assert name == BtreeIndexName(m.table, b[k - 1]);
      IndexStatementShape(Bootstrap(m)[k], name, m.table, "BTREE ((data->'" + b[k - 1] + "'));");
    } else if k == |b| + 1 {
      assert name == GinDataIndexName(m.table);
      IndexStatementShape(Bootstrap(m)[k], name, m.table, "GIN (data);");
    } else {
      assert name == GinIndexName(m.table, g[k - |b| - 2]);
      IndexStatementShape(Bootstrap(m)[k], name, m.table, "GIN ((data->'" + g[k - |b| - 2] + "'));");
    }
  }

  /** CreateIndexShape, for a statement known to be that CREATE INDEX. */
  lemma IndexStatementShape(s: string, name: string, table: string, indexMethod: string)
    requires s == CreateIndexSql(name, table, indexMethod)
    ensures Contains(s, IfNotExists)
    ensures StartsWith(s, "CREATE INDEX IF NOT EXISTS ")
    ensures StartsWith(s, "CREATE INDEX IF NOT EXISTS " + name + " ON " + table + " USING ")
  {
    CreateIndexShape(name, table, indexMethod);
  }



  /** CREATE TABLE declares the key column under the annotation's column
      name with the mapped SQL type, followed by the JSONB `data` column. */
  lemma CreateTableColumns(m: PgMapper)
    ensures StartsWith(Bootstrap(m)[0],
      "CREATE TABLE IF NOT EXISTS " + m.table + " (" + m.pkColumn + " " + SqlTypeName(m.keyType) + " PRIMARY KEY NOT NULL UNIQUE,")
    ensures Contains(Bootstrap(m)[0], "data JSONB")
  {
    CreateTableShape(m.table, m.pkColumn, m.keyType);
  }

  lemma BtreeIndexNameInjective(table: string, f1: string, f2: string)
    ensures BtreeIndexName(table, f1) == BtreeIndexName(table, f2) <==> f1 == f2
  {
    SuffixInjective("idx_btree_" + table + "_", f1, f2);
  }

  lemma GinIndexNameInjective(table: string, f1: string, f2: string)
    ensures GinIndexName(table, f1) == GinIndexName(table, f2) <==> f1 == f2
  {
    SuffixInjective("idx_gin_" + table + "_", f1, f2);
  }

  /** The whole-document GIN index has the name a `@GIndex` entry "data" would get. */
  lemma GinDataNameIsGinName(table: string)
    ensures GinDataIndexName(table) == GinIndexName(table, "data")
  {
  }

  /** A B-tree index name is never a GIN index name. */
  lemma BtreeNameIsNotGinName(table: string, f: string, g: string)
    ensures BtreeIndexName(table, f) != GinIndexName(table, g)
  {
    assert BtreeIndexName(table, f)[4] == 'b';
    assert GinIndexName(table, g)[4] == 'g';
  }

  /** Index names are not unique across tables: an underscore in a table or
      field name lets two different (table, field) pairs share a name, and
      the second CREATE INDEX IF NOT EXISTS is then skipped. */
  lemma BtreeNamesClashAcrossTables()
    ensures BtreeIndexName("t", "x_y") == BtreeIndexName("t_x", "y")
  {
    var p := "idx_btree_";
    AppendAssoc(p + "t", "_", "x_y");
    AppendAssoc(p, "t", "_" + "x_y");
    AppendAssoc(p + "t_x", "_", "y");
    AppendAssoc(p, "t_x", "_" + "y");
    assert "t" + ("_" + "x_y") == "t_x" + ("_" + "y");
  }

  /** Bootstrap creates pairwise distinctly named indexes exactly when the
      B-tree list has no repeats, the GIN list has no repeats and the GIN
      list does not contain "data" (whose index would take the name of the
      whole-document index). */
  lemma {:induction false} IndexNamesDistinct(m: PgMapper)
    ensures NoDuplicates(IndexNames(m)) <==>
      NoDuplicates(m.entity.btree) && NoDuplicates(m.entity.gin) && "data" !in m.entity.gin
  {
    var t, b, g, names := m.table, m.entity.btree, m.entity.gin, IndexNames(m);
    var nb := |b|;
    assert forall i :: 0 <= i < nb ==> names[i] == BtreeIndexName(t, b[i]);
    assert names[nb] == GinDataIndexName(t);
    assert forall i :: 0 <= i < |g| ==> names[nb + 1 + i] == GinIndexName(t, g[i]);
    GinDataNameIsGinName(t);
    if NoDuplicates(names) {
      forall i, j | 0 <= i < j < nb ensures b[i] != b[j] {
        BtreeIndexNameInjective(t, b[i], b[j]);
        assert names[i] != names[j];
      }
      forall i, j | 0 <= i < j < |g| ensures g[i] != g[j] {
        GinIndexNameInjective(t, g[i], g[j]);
        assert names[nb + 1 + i] != names[nb + 1 + j];
      }
      forall i | 0 <= i < |g| ensures g[i] != "data" {
        GinIndexNameInjective(t, g[i], "data");
        assert names[nb] != names[nb + 1 + i];
      }
    }
    if NoDuplicates(b) && NoDuplicates(g) && "data" !in g {
      forall i, j | 0 <= i < j < |names| ensures names[i] != names[j] {
        if j < nb {
          BtreeIndexNameInjective(t, b[i], b[j]);
        } else if i < nb && j == nb {
          BtreeNameIsNotGinName(t, b[i], "data");
        } else if i < nb {
          BtreeNameIsNotGinName(t, b[i], g[j - nb - 1]);
        } else if i == nb {
          GinIndexNameInjective(t, "data", g[j - nb - 1]);
        } else {
          GinIndexNameInjective(t, g[i - nb - 1], g[j - nb - 1]);
        }
      }
    }
  }

  // ---------------------------------------------------------------------
  // The entity classes of the repository's mapper test

  const TestDataTable: string := "test_data_table"

  function TestFields(keyType: JavaType, annotated: bool): seq<FieldDecl> {
    [ FieldDecl("id", keyType, if annotated then Some(DefaultPkColumn) else None),
      PlainField("name", StringClass),
      PlainField("something", StringClass) ]
  }

  /** `@Table(TEST_DATA_TABLE)` with a `@PrimaryKey String id`. Its `@Index`
      annotation is not read by the mapper, so it lists no index fields. */
  function CorrectTestDataClass(): EntityClass {
    EntityClass("gg.amy.pgorm.PgMapperTest$CorrectTestDataClass", Some(TestDataTable),
      TestFields(StringClass, true), [], [])
  }

  function DataClassNoPk(): EntityClass {
    EntityClass("gg.amy.pgorm.PgMapperTest$DataClassNoPk", Some(TestDataTable),
      TestFields(StringClass, false), [], [])
  }

  function DataClassNoTable(): EntityClass {
    EntityClass("gg.amy.pgorm.PgMapperTest$DataClassNoTable", None,
      TestFields(StringClass, true), [], [])
  }

  function DataClassBadPkType(): EntityClass {
    EntityClass("gg.amy.pgorm.PgMapperTest$DataClassBadPkType", Some(TestDataTable),
      TestFields(OtherClass("java.lang.Object"), true), [], [])
  }

  /** The mapper test expects an IllegalStateException for a class without
      a primary key. */
  lemma MapperTestNoPk()
    ensures Derive(DataClassNoPk()) == Failure(NoPrimaryKey(DataClassNoPk().name))
    ensures ExceptionOf(Derive(DataClassNoPk()).error) == IllegalStateException
    ensures Message(Derive(DataClassNoPk()).error) == "Class " + "gg.amy.pgorm.PgMapperTest$DataClassNoPk" + " has no @PrimaryKey!?"
  {
    var fs := DataClassNoPk().fields;
    assert fs[..1][..0] == [];
    assert fs[..2][..1] == fs[..1];
    assert fs[..3][..2] == fs[..2];
    assert fs[..3] == fs;
  }

  /** The mapper test expects an IllegalStateException for a class without
      a table. */
  lemma MapperTestNoTable()
    ensures Derive(DataClassNoTable()) == Failure(NoTable(DataClassNoTable().name))
    ensures ExceptionOf(Derive(DataClassNoTable()).error) == IllegalStateException
    ensures Message(Derive(DataClassNoTable()).error) ==
      "Got class " + "gg.amy.pgorm.PgMapperTest$DataClassNoTable" + " to map, but it has no @Table!?"
  {
  }

  /** The mapper test expects an IllegalArgumentException for an `Object` key. */
  lemma MapperTestBadPkType()
    ensures Derive(DataClassBadPkType()) == Failure(NoSqlType(OtherClass("java.lang.Object")))
    ensures ExceptionOf(Derive(DataClassBadPkType()).error) == IllegalArgumentException
    ensures Message(Derive(DataClassBadPkType()).error) == "No SQL type mapping known for class of type: java.lang.Object"
  {
    var fs := DataClassBadPkType().fields;
    assert fs[..3][..2] == fs[..2];
    assert fs[..2][..1] == fs[..1];
    assert fs[..3] == fs;
    assert LastPrimaryKey(fs) == Some(0);
  }

  /** The class the mapper test saves and loads gets a TEXT key column `id`,
      and its bootstrap is the two statements that create the table and its
      whole-document index. */
  lemma MapperTestCorrect()
    ensures Derive(CorrectTestDataClass()) == Success(PgMapper(CorrectTestDataClass(), TestDataTable, 0, "id", TEXT))
    ensures Bootstrap(Derive(CorrectTestDataClass()).value) ==
      [CreateTableSql(TestDataTable, "id", TEXT), GinDataIndexSql(TestDataTable)]
  {
    var fs := CorrectTestDataClass().fields;
    assert fs[..3][..2] == fs[..2];
    assert fs[..2][..1] == fs[..1];
    assert fs[..3] == fs;
    assert LastPrimaryKey(fs) == Some(0);
    assert BtreeStatements(TestDataTable, []) == [];
    assert GinStatements(TestDataTable, []) == [];
  }

  /** Two fields carrying `@PrimaryKey`: no error, and the later one (with
      its own column name) becomes the key. */
  lemma TwoPrimaryKeysLastWins()
    ensures var c := EntityClass("Twice", Some("t"),
              [FieldDecl("a", StringClass, Some("a_col")), FieldDecl("b", LongPrimitive, Some("b_col"))], [], []);
      Derive(c) == Success(PgMapper(c, "t", 1, "b_col", BIGINT))
  {
  }
}
