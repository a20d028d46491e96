/** `SqlBuilderExtensions`: the typed predicate builders. Each `Where*` call resolves the
    table from the entity type and the column from the selected member, draws a fresh
    parameter name, binds the caller's value under that name and appends a clause whose
    text mentions only the table, the column and the name. */
module BuilderExtensions {
  import opened Wrappers
  import opened Text
  import opened SqlBuilders

  /** `(DbType)(-1)`: the tag under which a collection is bound as one multi-valued parameter. */
  const EnumerableMultiParameter: int := -1

  /** The quoted column reference `"table"."field"`. */
  function Column(table: string, field: string): string {
    "\"" + table + "\".\"" + field + "\""
  }

  /** The one-parameter predicate forms. */
  datatype Form = Equal | NotEqual | GreaterThanOrEqualTo | LessThan | In | SubstringOf | Contains

  /** The clause text of a one-parameter predicate on `"table"."field"` with parameter `@name`.
      `SubstringOf` is reversed containment: the column's text occurs inside the value. */
  function FragmentSql(form: Form, table: string, field: string, name: string): string {
    match form
    case Equal => Column(table, field) + " = @" + name
    case NotEqual => Column(table, field) + " != @" + name
    case GreaterThanOrEqualTo => Column(table, field) + " >= @" + name
    case LessThan => Column(table, field) + " < @" + name
    case In => Column(table, field) + " IN @" + name
    case SubstringOf => "instr(@" + name + ", " + Column(table, field) + ")"
    case Contains => Column(table, field) + " LIKE '%' || @" + name + " || '%'"
  }

  function BetweenSql(table: string, field: string, lower: string, upper: string): string {
    Column(table, field) + " BETWEEN @" + lower + " AND @" + upper
  }

  function NullSql(table: string, field: string): string {
    Column(table, field) + " IS NULL"
  }

  function NotNullSql(table: string, field: string): string {
    Column(table, field) + " IS NOT NULL"
  }

  /** Every one-parameter fragment refers to its parameter by `@name`. */
  lemma FragmentRefersToName(form: Form, table: string, field: string, name: string)
    ensures IsInfix("@" + name, FragmentSql(form, table, field, name))
  {
    var col := Column(table, field);
    var (before, after) := match form
      case Equal => (col + " = ", "")
      case NotEqual => (col + " != ", "")
      case GreaterThanOrEqualTo => (col + " >= ", "")
      case LessThan => (col + " < ", "")
      case In => (col + " IN ", "")
      case SubstringOf => ("instr(", ", " + col + ")")
      case Contains => (col + " LIKE '%' || ", " || '%'");
    assert FragmentSql(form, table, field, name) == before + ("@" + name) + after;
    InfixOfConcat(before, "@" + name, after);
  }

  /** A BETWEEN fragment refers to both bounds, the lower one first. */
  lemma BetweenRefersToNames(table: string, field: string, lower: string, upper: string)
    ensures var s := BetweenSql(table, field, lower, upper);
      var k := |Column(table, field) + " BETWEEN "|;
      OccursAt("@" + lower, s, k) && OccursAt("@" + upper, s, k + |"@" + lower + " AND "|)
  {
  }

  /** Dapper's per-call `QueryDetails`: table, column, the first parameter's name and the bag. */
  class QueryDetails {
    var table: string
    var field: string
    var parameterName: string
    var parameters: map<string, Param>

    constructor (table: string, field: string)
      ensures this.table == table && this.field == field
      ensures parameterName == "" && parameters == map[]
    {
      this.table, this.field := table, field;
      parameterName, parameters := "", map[];
    }

    /** Draws a fresh name and binds `value` (with its `DbType`) under it. */
    method AddParameter(supply: NameSupply, value: Value, dbType: Option<int>) returns (name: string)
      requires FreshFrom(parameters, supply.next)
      modifies this, supply
      ensures name == ParamName(old(supply.next)) && supply.next == old(supply.next) + 1
      ensures name !in old(parameters)
      ensures parameters == old(parameters)[name := Param(value, dbType)]
      ensures FreshFrom(parameters, supply.next)
      ensures table == old(table) && field == old(field) && parameterName == old(parameterName)
    {
      name := supply.NewName();
      FreshAfterDraw(parameters, supply.next - 1, Param(value, dbType));
      parameters := parameters[name := Param(value, dbType)];
    }
  }

  /** The table of the entity type, the selected member, and `value` bound under a new name. */
  method GetQueryDetails(supply: NameSupply, property: Field, value: Value, dbType: Option<int>)
    returns (d: QueryDetails)
    modifies supply
    ensures fresh(d)
    ensures d.table == TableName(property.model) && d.field == property.member
    ensures d.parameterName == ParamName(old(supply.next))
    ensures d.parameters == map[d.parameterName := Param(value, dbType)]
    ensures FreshFrom(d.parameters, supply.next)
    ensures supply.next == old(supply.next) + 1
  {
    d := new QueryDetails(TableName(property.model), property.member);
    var name := d.AddParameter(supply, value, dbType);
    d.parameterName := name;
  }

  /** The effect of one one-parameter `Where*`/`OrWhere*` call: the supply advanced once, one
      clause of `kind` appended whose text is built from the table, the column and the new
      name alone, and the value bound under that name, which was free before. */
  twostate predicate AppendedClause(builder: SqlBuilder, supply: NameSupply, kind: ClauseKind,
                                    form: Form, property: Field, p: Param)
    reads builder, supply
  {
    var name := ParamName(old(supply.next));
    && supply.next == old(supply.next) + 1
    && name !in old(builder.parameters)
    && builder.wheres == old(builder.wheres) + [Clause(kind, FragmentSql(form, TableName(property.model), property.member, name))]
    && builder.parameters == old(builder.parameters)[name := p]
    && builder.selects == old(builder.selects) && builder.joins == old(builder.joins)
    && builder.FreshFor(supply)
  }

  method WhereForm(builder: SqlBuilder, supply: NameSupply, kind: ClauseKind, form: Form,
                   property: Field, value: Value, dbType: Option<int>) returns (r: SqlBuilder)
    requires builder.FreshFor(supply)
    modifies builder, supply
    ensures r == builder
    ensures AppendedClause(builder, supply, kind, form, property, Param(value, dbType))
  {
    var details := GetQueryDetails(supply, property, value, dbType);
    var name := details.parameterName;
    var sql := FragmentSql(form, details.table, details.field, name);
    FreshAfterDraw(builder.parameters, old(supply.next), Param(value, dbType));
    if kind == And {
      r := builder.Where(sql, details.parameters);
    } else {
      r := builder.OrWhere(sql, details.parameters);
    }
    assert builder.parameters == old(builder.parameters)[name := Param(value, dbType)];
  }

  method SelectAll(builder: SqlBuilder) returns (r: SqlBuilder)
    modifies builder
    ensures r == builder && builder.selects == old(builder.selects) + ["*"]
    ensures builder.joins == old(builder.joins) && builder.wheres == old(builder.wheres)
    ensures builder.parameters == old(builder.parameters)
  {
    r := builder.Select("*");
  }

  method SelectCount(builder: SqlBuilder) returns (r: SqlBuilder)
    modifies builder
    ensures r == builder && builder.selects == old(builder.selects) + ["COUNT(*)"]
    ensures builder.joins == old(builder.joins) && builder.wheres == old(builder.wheres)
    ensures builder.parameters == old(builder.parameters)
  {
    r := builder.Select("COUNT(*)");
  }

  method WhereEqual(builder: SqlBuilder, supply: NameSupply, property: Field, value: Value)
    returns (r: SqlBuilder)
    requires builder.FreshFor(supply)
    modifies builder, supply
    ensures r == builder
    ensures AppendedClause(builder, supply, And, Equal, property, Param(value, None))
  {
    r := WhereForm(builder, supply, And, Equal, property, value, None);
  }

  method WhereNotEqual(builder: SqlBuilder, supply: NameSupply, property: Field, value: Value)
    returns (r: SqlBuilder)
    requires builder.FreshFor(supply)
    modifies builder, supply
    ensures r == builder
    ensures AppendedClause(builder, supply, And, NotEqual, property, Param(value, None))
  {
    r := WhereForm(builder, supply, And, NotEqual, property, value, None);
  }

  method WhereGreaterThanOrEqualTo(builder: SqlBuilder, supply: NameSupply, property: Field, value: Value)
    returns (r: SqlBuilder)
    requires builder.FreshFor(supply)
    modifies builder, supply
    ensures r == builder
    ensures AppendedClause(builder, supply, And, GreaterThanOrEqualTo, property, Param(value, None))
  {
    r := WhereForm(builder, supply, And, GreaterThanOrEqualTo, property, value, None);
  }

  method WhereLessThan(builder: SqlBuilder, supply: NameSupply, property: Field, value: Value)
    returns (r: SqlBuilder)
    requires builder.FreshFor(supply)
    modifies builder, supply
    ensures r == builder
    ensures AppendedClause(builder, supply, And, LessThan, property, Param(value, None))
  {
    r := WhereForm(builder, supply, And, LessThan, property, value, None);
  }

  /** The whole collection is one parameter, tagged as multi-valued. */
  method WhereIn(builder: SqlBuilder, supply: NameSupply, property: Field, value: Value)
    returns (r: SqlBuilder)
    requires builder.FreshFor(supply)
    modifies builder, supply
    ensures r == builder
    ensures AppendedClause(builder, supply, And, In, property, Param(value, Some(EnumerableMultiParameter)))
  {
    r := WhereForm(builder, supply, And, In, property, value, Some(EnumerableMultiParameter));
  }

  method OrWhereIn(builder: SqlBuilder, supply: NameSupply, property: Field, value: Value)
    returns (r: SqlBuilder)
    requires builder.FreshFor(supply)
    modifies builder, supply
    ensures r == builder
    ensures AppendedClause(builder, supply, Or, In, property, Param(value, Some(EnumerableMultiParameter)))
  {
    r := WhereForm(builder, supply, Or, In, property, value, Some(EnumerableMultiParameter));
  }

  method WhereSubstringOf(builder: SqlBuilder, supply: NameSupply, property: Field, value: Value)
    returns (r: SqlBuilder)
    requires builder.FreshFor(supply)
    modifies builder, supply
    ensures r == builder
    ensures AppendedClause(builder, supply, And, SubstringOf, property, Param(value, None))
  {
    r := WhereForm(builder, supply, And, SubstringOf, property, value, None);
  }

  method WhereContains(builder: SqlBuilder, supply: NameSupply, property: Field, value: Value)
    returns (r: SqlBuilder)
    requires builder.FreshFor(supply)
    modifies builder, supply
    ensures r == builder
    ensures AppendedClause(builder, supply, And, Contains, property, Param(value, None))
  {
    r := WhereForm(builder, supply, And, Contains, property, value, None);
  }

  /** The effect of `WhereBetween`/`OrWhereBetween`: two names drawn, the lower bound under
      the first and the upper under the second, both free before, in one clause. */
  twostate predicate AppendedBetween(builder: SqlBuilder, supply: NameSupply, kind: ClauseKind,
                                     property: Field, lower: Value, upper: Value)
    reads builder, supply
  {
    var lowerName, upperName := ParamName(old(supply.next)), ParamName(old(supply.next) + 1);
    && supply.next == old(supply.next) + 2
    && lowerName != upperName
    && lowerName !in old(builder.parameters) && upperName !in old(builder.parameters)
    && builder.wheres == old(builder.wheres) + [Clause(kind, BetweenSql(TableName(property.model), property.member, lowerName, upperName))]
    && builder.parameters == old(builder.parameters)[lowerName := Param(lower, None)][upperName := Param(upper, None)]
    && builder.selects == old(builder.selects) && builder.joins == old(builder.joins)
    && builder.FreshFor(supply)
  }

  method WhereBetweenKind(builder: SqlBuilder, supply: NameSupply, kind: ClauseKind, property: Field,
                          lower: Value, upper: Value) returns (r: SqlBuilder)
    requires builder.FreshFor(supply)
    modifies builder, supply
    ensures r == builder
    ensures AppendedBetween(builder, supply, kind, property, lower, upper)
  {
    var details := GetQueryDetails(supply, property, lower, None);
    var lowerName := details.parameterName;
    var upperName := details.AddParameter(supply, upper, None);
    ParamNamesDistinct(old(supply.next), old(supply.next) + 1);
    FreshAfterDraw(old(builder.parameters), old(supply.next), Param(lower, None));
    FreshAfterDraw(old(builder.parameters)[lowerName := Param(lower, None)], old(supply.next) + 1, Param(upper, None));
    var sql := BetweenSql(details.table, details.field, lowerName, upperName);
    if kind == And {
      r := builder.Where(sql, details.parameters);
    } else {
      r := builder.OrWhere(sql, details.parameters);
    }
    assert builder.parameters == old(builder.parameters)[lowerName := Param(lower, None)][upperName := Param(upper, None)];
  }

  method WhereBetween(builder: SqlBuilder, supply: NameSupply, property: Field, lower: Value, upper: Value)
    returns (r: SqlBuilder)
    requires builder.FreshFor(supply)
    modifies builder, supply
    ensures r == builder
    ensures AppendedBetween(builder, supply, And, property, lower, upper)
  {
    r := WhereBetweenKind(builder, supply, And, property, lower, upper);
  }

  method OrWhereBetween(builder: SqlBuilder, supply: NameSupply, property: Field, lower: Value, upper: Value)
    returns (r: SqlBuilder)
    requires builder.FreshFor(supply)
    modifies builder, supply
    ensures r == builder
    ensures AppendedBetween(builder, supply, Or, property, lower, upper)
  {
    r := WhereBetweenKind(builder, supply, Or, property, lower, upper);
  }

  /** A name is drawn (the details are built with a null value) but no parameter reaches
      the builder. */
  method WhereNull(builder: SqlBuilder, supply: NameSupply, property: Field) returns (r: SqlBuilder)
    requires builder.FreshFor(supply)
    modifies builder, supply
    ensures r == builder && builder.FreshFor(supply)
    ensures supply.next == old(supply.next) + 1
    ensures builder.wheres == old(builder.wheres) + [Clause(And, NullSql(TableName(property.model), property.member))]
    ensures builder.parameters == old(builder.parameters)
    ensures builder.selects == old(builder.selects) && builder.joins == old(builder.joins)
  {
    var details := GetQueryDetails(supply, property, NullValue, None);
    r := builder.Where(NullSql(details.table, details.field), map[]);
    assert builder.parameters == old(builder.parameters);
  }

  method WhereNotNull(builder: SqlBuilder, supply: NameSupply, property: Field) returns (r: SqlBuilder)
    requires builder.FreshFor(supply)
    modifies builder, supply
    ensures r == builder && builder.FreshFor(supply)
    ensures supply.next == old(supply.next) + 1
    ensures builder.wheres == old(builder.wheres) + [Clause(And, NotNullSql(TableName(property.model), property.member))]
    ensures builder.parameters == old(builder.parameters)
    ensures builder.selects == old(builder.selects) && builder.joins == old(builder.joins)
  {
    var details := GetQueryDetails(supply, property, NullValue, None);
    r := builder.Where(NotNullSql(details.table, details.field), map[]);
    assert builder.parameters == old(builder.parameters);
  }
}
