/** The query-building vocabulary the data-access layer works with: bound parameter
    values, the entity-to-table mapping, the supply of fresh parameter names, and Dapper's
    `SqlBuilder` (a mutable bag of SELECT items, joins, WHERE clauses and parameters). */
module SqlBuilders {
  import opened Wrappers
  import opened Text

  /** A value bound to a query parameter (the C# `object` handed to Dapper). Dates and
      enum members are bound as integers. */
  datatype Value =
    | IntValue(i: int)
    | TextValue(s: string)
    | BoolValue(b: bool)
    | NullValue
    | ListValue(items: seq<Value>)

  /** One entry of Dapper's `DynamicParameters` bag: the value and its optional `DbType`. */
  datatype Param = Param(value: Value, dbType: Option<int>)

  /** The entity types of the core, each mapped to one table. */
  datatype Model =
    | MovieModel | ProfileModel | AlternativeTitleModel | MovieFileModel
    | HistoryModel | BlacklistModel | CommandModel | ConfigModel | LogModel

  /** `TableMapping.Mapper.TableNameMapping(typeof(TModel))`. */
  function TableName(m: Model): string {
    match m
    case MovieModel => "Movies"
    case ProfileModel => "Profiles"
    case AlternativeTitleModel => "AlternativeTitles"
    case MovieFileModel => "MovieFiles"
    case HistoryModel => "History"
    case BlacklistModel => "Blacklist"
    case CommandModel => "Commands"
    case ConfigModel => "Config"
    case LogModel => "Logs"
  }

  /** A field selector `x => x.Member` on entity type `model`. */
  datatype Field = Field(model: Model, member: string)

  /** The `k`-th name the supply hands out. */
  function ParamName(k: nat): string {
    "p" + NatText(k)
  }

  /** Two draws from the supply never give the same name. */
  lemma ParamNamesDistinct(i: nat, j: nat)
    requires i != j
    ensures ParamName(i) != ParamName(j)
  {
    if ParamName(i) == ParamName(j) {
      assert NatText(i) == ParamName(i)[1..] == ParamName(j)[1..] == NatText(j);
      NatTextInjective(i, j);
    }
  }

  /** A generated name is a single SQL token, so `@name` cannot change the query's structure. */
  lemma ParamNameIsIdentifier(k: nat)
    ensures IsIdentifier(ParamName(k))
  {
    var s := ParamName(k);
    forall i | 0 <= i < |s| ensures IsIdentifierChar(s[i]) {
      if i > 0 {
        assert s[i] == NatText(k)[i - 1];
      }
    }
  }

  /** No name the supply has not yet handed out is bound in `params`. */
  ghost predicate FreshFrom(params: map<string, Param>, next: nat) {
    forall j: nat :: next <= j ==> ParamName(j) !in params
  }

  /** Binding the name just drawn keeps every later name free. */
  lemma FreshAfterDraw(params: map<string, Param>, k: nat, p: Param)
    requires FreshFrom(params, k)
    ensures ParamName(k) !in params
    ensures FreshFrom(params[ParamName(k) := p], k + 1)
  {
    forall j: nat | k + 1 <= j ensures ParamName(j) !in params[ParamName(k) := p] {
      ParamNamesDistinct(j, k);
    }
  }

  /** The replacement for `Guid.NewGuid()`: a counter whose every value yields a new name. */
  class NameSupply {
    var next: nat

    constructor ()
      ensures next == 0
    {
      next := 0;
    }

    method NewName() returns (name: string)
      modifies this
      ensures name == ParamName(old(next))
      ensures next == old(next) + 1
    {
      name := ParamName(next);
      next := next + 1;
    }
  }

  datatype ClauseKind = And | Or

  /** A WHERE clause: `Where` clauses are conjoined, `OrWhere` clauses form one disjunction. */
  datatype Clause = Clause(kind: ClauseKind, sql: string)

  datatype JoinKind = Inner | Left

  datatype JoinClause = JoinClause(kind: JoinKind, sql: string)

  /** Dapper's `SqlBuilder`, reduced to what the data-access layer puts into it. */
  class SqlBuilder {
    var selects: seq<string>
    var joins: seq<JoinClause>
    var wheres: seq<Clause>
    var parameters: map<string, Param>

    constructor ()
      ensures selects == [] && joins == [] && wheres == [] && parameters == map[]
    {
      selects, joins, wheres, parameters := [], [], [], map[];
    }

    /** The builder's bound names leave room for every name `supply` will still hand out. */
    ghost predicate FreshFor(supply: NameSupply)
      reads this, supply
    {
      FreshFrom(parameters, supply.next)
    }

    method Select(sql: string) returns (r: SqlBuilder)
      modifies this
      ensures r == this
      ensures selects == old(selects) + [sql]
      ensures joins == old(joins) && wheres == old(wheres) && parameters == old(parameters)
    {
      selects := selects + [sql];
      r := this;
    }

    method Join(sql: string) returns (r: SqlBuilder)
      modifies this
      ensures r == this
      ensures joins == old(joins) + [JoinClause(Inner, sql)]
      ensures selects == old(selects) && wheres == old(wheres) && parameters == old(parameters)
    {
      joins := joins + [JoinClause(Inner, sql)];
      r := this;
    }

    method LeftJoin(sql: string) returns (r: SqlBuilder)
      modifies this
      ensures r == this
      ensures joins == old(joins) + [JoinClause(Left, sql)]
      ensures selects == old(selects) && wheres == old(wheres) && parameters == old(parameters)
    {
      joins := joins + [JoinClause(Left, sql)];
      r := this;
    }

    /** Adds a conjunctive clause and merges its parameter bag into the builder's. */
    method Where(sql: string, params: map<string, Param>) returns (r: SqlBuilder)
      modifies this
      ensures r == this
      ensures wheres == old(wheres) + [Clause(And, sql)]
      ensures parameters == old(parameters) + params
      ensures selects == old(selects) && joins == old(joins)
    {
      wheres := wheres + [Clause(And, sql)];
      parameters := parameters + params;
      r := this;
    }

    /** Adds a disjunctive clause and merges its parameter bag into the builder's. */
    method OrWhere(sql: string, params: map<string, Param>) returns (r: SqlBuilder)
      modifies this
      ensures r == this
      ensures wheres == old(wheres) + [Clause(Or, sql)]
      ensures parameters == old(parameters) + params
      ensures selects == old(selects) && joins == old(joins)
    {
      wheres := wheres + [Clause(Or, sql)];
      parameters := parameters + params;
      r := this;
    }
  }
}
