/** The query builder (src/main/java/gg/amy/pgorm/query/QueryBuilder.java):
    a string accumulator that starts from `SELECT DATA FROM <table> ` and
    appends one fragment per call. Nothing is escaped or checked: field
    names, type names and values are pasted into the text as given, so no
    operation has a precondition. */
module Query {
  import Schema
  import opened Text

  datatype Order = Ascending | Descending

  /** The keyword of an ordering. */
  function OrderKeyword(o: Order): string {
    match o
    case Ascending => "ASC"
    case Descending => "DESC"
  }

  datatype Comparison = GT | LT | EQ

  /** The operator of a comparison. */
  function Symbol(c: Comparison): string {
    match c
    case GT => ">"
    case LT => "<"
    case EQ => "="
  }

  /** The three comparisons render as three different operators, and the
      two orders as two different keywords, so a query's text tells which
      was asked for. */
  lemma SymbolsDistinct(a: Comparison, b: Comparison)
    ensures Symbol(a) == Symbol(b) <==> a == b
  {
  }

  lemma OrderKeywordsDistinct(a: Order, b: Order)
    ensures OrderKeyword(a) == OrderKeyword(b) <==> a == b
  {
  }

  const Base: string := "SELECT DATA FROM "

  /** A call on the builder, with its arguments. */
  datatype Clause =
    | Where
    | Has(field: string)
    | And
    | CompareValue(field: string, sqlType: string, value: string, comparison: Comparison)
    | CompareField(field1: string, type1: string, field2: string, type2: string, comparison: Comparison)
    | OrderBy(field: string, sqlType: string, order: Order)

  /** The text one call appends. */
  function Fragment(c: Clause): string {
    match c
    case Where => " WHERE "
    case Has(f) => " data->" + f + " IS NOT NULL "
    case And => " AND "
    case CompareValue(f, t, v, cmp) => " (data->" + f + ")::text::" + t + " " + Symbol(cmp) + " " + v + " "
    case CompareField(f1, t1, f2, t2, cmp) =>
      " (data->" + f1 + ")::text::" + t1 + " " + Symbol(cmp) + " " + "(data->" + f2 + ")::text::" + t2 + " "
    case OrderBy(f, t, o) => " ORDER BY (data->" + f + ")::text::" + t + " " + OrderKeyword(o) + " "
  }

  /** The fragments of a sequence of calls, in call order. */
  function Fragments(cs: seq<Clause>): string {
    if cs == [] then "" else Fragments(cs[..|cs| - 1]) + Fragment(cs[|cs| - 1])
  }

  /** The query a builder for `table` holds after the calls `cs`. */
  function Render(table: string, cs: seq<Clause>): string {
    Base + table + " " + Fragments(cs)
  }

  /** The fragments of two runs of calls, one after the other, are the
      fragments of the first run followed by those of the second. */
  lemma {:induction false} FragmentsAppend(a: seq<Clause>, b: seq<Clause>)
    ensures Fragments(a + b) == Fragments(a) + Fragments(b)
  {
    if b == [] {
      assert a + b == a;
    } else {
      var init, last := b[..|b| - 1], b[|b| - 1];
      assert (a + b)[..|a + b| - 1] == a + init;
      assert (a + b)[|a + b| - 1] == last;
      FragmentsAppend(a, init);
      var x, y, z := Fragments(a), Fragments(init), Fragment(last);
      AppendAssoc(x, y, z);
      assert Fragments(a + b) == x + y + z;
      assert Fragments(b) == y + z;
    }
  }

  /** Calls only ever extend the query: the query after more calls starts
      with the query before them. */
  lemma QueryOnlyGrows(table: string, a: seq<Clause>, b: seq<Clause>)
    ensures |Render(table, a)| <= |Render(table, a + b)|
    ensures Render(table, a + b)[..|Render(table, a)|] == Render(table, a)
  {
    FragmentsAppend(a, b);
    AppendAssoc(Base + table + " ", Fragments(a), Fragments(b));
    assert Render(table, a + b) == Render(table, a) + Fragments(b);
  }

  /** One more call appends its fragment to the query. */
  lemma RenderStep(table: string, cs: seq<Clause>, c: Clause)
    ensures Render(table, cs + [c]) == Render(table, cs) + Fragment(c)
  {
    var q, f := Base + table + " ", Fragment(c);
    assert (cs + [c])[..|cs + [c]| - 1] == cs;
    assert Fragments(cs + [c]) == Fragments(cs) + f;
    AppendAssoc(q, Fragments(cs), f);
  }

  /** Each call's fragment sits right after the fragments of the calls
      before it. */
  lemma FragmentPosition(table: string, cs: seq<Clause>, k: nat)
    requires k < |cs|
    ensures OccursAt(Render(table, cs), Fragment(cs[k]), |Render(table, cs[..k])|)
  {
    var before, rest := cs[..k], cs[k + 1..];
    assert cs == before + [cs[k]] + rest;
    var q, f, t := Base + table + " ", Fragment(cs[k]), Fragments(rest);
    FragmentsAppend(before + [cs[k]], rest);
    RenderStep(table, before, cs[k]);
    AppendAssoc(q, Fragments(before + [cs[k]]), t);
    assert Render(table, cs) == Render(table, before) + f + t;
    SliceMiddle(Render(table, before), f, t);
  }

  /** Fragments appear in call order: an earlier call's fragment ends
      before a later call's fragment starts. */
  lemma CallOrder(table: string, cs: seq<Clause>, i: nat, j: nat)
    requires i < j < |cs|
    ensures |Render(table, cs[..i])| + |Fragment(cs[i])| <= |Render(table, cs[..j])|
  {
    assert cs[..j] == cs[..i + 1] + cs[i + 1..j];
    assert cs[..i + 1] == cs[..i] + [cs[i]];
    QueryOnlyGrows(table, cs[..i + 1], cs[i + 1..j]);
    RenderStep(table, cs[..i], cs[i]);
  }

  class QueryBuilder {
    /** The query text built so far. */
    var query: string
    /** The mapper the builder was created from; no method reads it. */
    const mapper: Schema.PgMapper
    /** The table the builder was created for, and the calls made on it. */
    ghost const table: string
    ghost var clauses: seq<Clause>

    ghost predicate Valid()
      reads this
    {
      query == Render(table, clauses)
    }

    constructor (mapper: Schema.PgMapper, table: string)
      ensures Valid() && this.mapper == mapper && this.table == table && clauses == []
      ensures query == "SELECT DATA FROM " + table + " "
    {
      this.mapper := mapper;
      this.table := table;
      query := Base + table + " ";
      clauses := [];
    }

    method Where() returns (self: QueryBuilder)
      requires Valid()
      modifies this
      ensures Valid() && self == this && clauses == old(clauses) + [Clause.Where]
      ensures query == old(query) + " WHERE "
    {
      RenderStep(table, clauses, Clause.Where);
      query := query + " WHERE ";
      clauses := clauses + [Clause.Where];
      return this;
    }

    method Has(field: string) returns (self: QueryBuilder)
      requires Valid()
      modifies this
      ensures Valid() && self == this && clauses == old(clauses) + [Clause.Has(field)]
      ensures query == old(query) + (" data->" + field + " IS NOT NULL ")
    {
      RenderStep(table, clauses, Clause.Has(field));
      query := query + (" data->" + field + " IS NOT NULL ");
      clauses := clauses + [Clause.Has(field)];
      return this;
    }

    method And() returns (self: QueryBuilder)
      requires Valid()
      modifies this
      ensures Valid() && self == this && clauses == old(clauses) + [Clause.And]
      ensures query == old(query) + " AND "
    {
      RenderStep(table, clauses, Clause.And);
      query := query + " AND ";
      clauses := clauses + [Clause.And];
      return this;
    }

    method CompareValue(field: string, sqlType: string, value: string, comparison: Comparison) returns (self: QueryBuilder)
      requires Valid()
      modifies this
      ensures Valid() && self == this
      ensures clauses == old(clauses) + [Clause.CompareValue(field, sqlType, value, comparison)]
      ensures query == old(query) + (" (data->" + field + ")::text::" + sqlType + " " + Symbol(comparison) + " " + value + " ")
    {
      RenderStep(table, clauses, Clause.CompareValue(field, sqlType, value, comparison));
      query := query + (" (data->" + field + ")::text::" + sqlType + " " + Symbol(comparison) + " " + value + " ");
      clauses := clauses + [Clause.CompareValue(field, sqlType, value, comparison)];
      return this;
    }

    method CompareField(field1: string, type1: string, field2: string, type2: string, comparison: Comparison)
      returns (self: QueryBuilder)
      requires Valid()
      modifies this
      ensures Valid() && self == this
      ensures clauses == old(clauses) + [Clause.CompareField(field1, type1, field2, type2, comparison)]
      ensures query == old(query) + (" (data->" + field1 + ")::text::" + type1 + " " + Symbol(comparison) + " "
                                    + "(data->" + field2 + ")::text::" + type2 + " ")
    {
      RenderStep(table, clauses, Clause.CompareField(field1, type1, field2, type2, comparison));
      query := query + (" (data->" + field1 + ")::text::" + type1 + " " + Symbol(comparison) + " "
                        + "(data->" + field2 + ")::text::" + type2 + " ");
      clauses := clauses + [Clause.CompareField(field1, type1, field2, type2, comparison)];
      return this;
    }

    method Order(field: string, sqlType: string, order: Order) returns (self: QueryBuilder)
      requires Valid()
      modifies this
      ensures Valid() && self == this && clauses == old(clauses) + [Clause.OrderBy(field, sqlType, order)]
      ensures query == old(query) + (" ORDER BY (data->" + field + ")::text::" + sqlType + " " + OrderKeyword(order) + " ")
    {
      RenderStep(table, clauses, Clause.OrderBy(field, sqlType, order));
      query := query + (" ORDER BY (data->" + field + ")::text::" + sqlType + " " + OrderKeyword(order) + " ");
      clauses := clauses + [Clause.OrderBy(field, sqlType, order)];
      return this;
    }
  }

  /** The calls of the chain `where().has("name").and().compareValue("age",
      "int", "18", GT).order("age", "int", ASC)`. */
  function WidgetsCalls(): seq<Clause> {
    [Clause.Where, Clause.Has("name"), Clause.And,
     Clause.CompareValue("age", "int", "18", GT), Clause.OrderBy("age", "int", Ascending)]
  }

  /** That chain on a builder for `widgets`: the builder records the five
      calls, so the query is their rendering. */
  method WidgetsQuery(mapper: Schema.PgMapper) returns (q: string)
    ensures q == Render("widgets", WidgetsCalls())
  {
    var b := new QueryBuilder(mapper, "widgets");
    var b1 := b.Where();
    var b2 := b1.Has("name");
    var b3 := b2.And();
    var b4 := b3.CompareValue("age", "int", "18", GT);
    var b5 := b4.Order("age", "int", Ascending);
    assert b5.clauses == WidgetsCalls();
    q := b5.query;
  }

  /** The widgets chain appends ` WHERE `, the `name` test, ` AND `, the `age`
      comparison and the ORDER BY, in that order. */
  lemma WidgetsFragments()
    ensures |WidgetsCalls()| == 5
    ensures Fragment(WidgetsCalls()[0]) == " WHERE "
    ensures Fragment(WidgetsCalls()[1]) == " data->name IS NOT NULL "
    ensures Fragment(WidgetsCalls()[2]) == " AND "
    ensures WidgetsCalls()[3] == Clause.CompareValue("age", "int", "18", GT)
    ensures WidgetsCalls()[4] == Clause.OrderBy("age", "int", Ascending)
  {
  }

  /** In the widgets query, on any table, each of those fragments occurs
      where the query of the calls before it ends, and it ends before the
      next one begins. */
  lemma WidgetsQueryInOrder(table: string)
    ensures var cs := WidgetsCalls();
      && (forall k | 0 <= k < |cs| :: OccursAt(Render(table, cs), Fragment(cs[k]), |Render(table, cs[..k])|))
      && (forall i, j | 0 <= i < j < |cs| ::
            |Render(table, cs[..i])| + |Fragment(cs[i])| <= |Render(table, cs[..j])|)
  {
    var cs := WidgetsCalls();
    forall k | 0 <= k < |cs|
      ensures OccursAt(Render(table, cs), Fragment(cs[k]), |Render(table, cs[..k])|)
    {
      FragmentPosition(table, cs, k);
    }
    forall i, j | 0 <= i < j < |cs|
      ensures |Render(table, cs[..i])| + |Fragment(cs[i])| <= |Render(table, cs[..j])|
    {
      CallOrder(table, cs, i, j);
    }
  }
}
