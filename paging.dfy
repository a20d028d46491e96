/** `PagingSpec<TModel>` and the paging filters the API modules attach to it. A filter fixes
    its table and draws its parameter name once, when it is constructed, and adds exactly
    one conjunctive clause to whatever builder it is later applied to. */
module Paging {
  import opened Wrappers
  import opened Text
  import opened SqlBuilders

  datatype SortDirection = Default | Ascending | Descending

  datatype FilterKind = EqualFilter | InFilter

  /** The bracket-quoted clause text of a paging filter: `[table].[prop] = @id` or `... IN @id`. */
  function PagingFilterSql(kind: FilterKind, table: string, property: string, id: string): string {
    "[" + table + "].[" + property + "]" + (if kind == EqualFilter then " = @" else " IN @") + id
  }

  /** Whether a row whose column holds `column` passes a filter of this kind bound to
      `value`: equality, or membership in the bound collection. */
  predicate FilterAdmits(kind: FilterKind, value: Value, column: Value) {
    match kind
    case EqualFilter => column == value
    case InFilter => value.ListValue? && column in value.items
  }

  /** The clause text refers to the filter's parameter id. */
  lemma PagingFilterRefersToId(kind: FilterKind, table: string, property: string, id: string)
    ensures IsInfix("@" + id, PagingFilterSql(kind, table, property, id))
  {
    var before := "[" + table + "].[" + property + "]" + (if kind == EqualFilter then " = " else " IN ");
    assert PagingFilterSql(kind, table, property, id) == before + ("@" + id) + "";
    InfixOfConcat(before, "@" + id, "");
  }

  /** `WhereEqualPagingFilter` (kind `EqualFilter`) and its subclass `WhereInPagingFilter`
      (kind `InFilter`), which shares the constructor and differs only in the clause text. */
  class PagingFilter {
    const table: string
    const id: string
    ghost const idIndex: nat
    const property: string
    const kind: FilterKind
    const value: Value
    const parameters: map<string, Param>

    ghost predicate Valid() {
      id == ParamName(idIndex) && parameters == map[id := Param(value, None)]
    }

    constructor WhereEqual(supply: NameSupply, property: Field, values: Value)
      modifies supply
      ensures Valid() && kind == EqualFilter
      ensures table == TableName(property.model) && this.property == property.member
      ensures value == values && idIndex == old(supply.next) && supply.next == old(supply.next) + 1
    {
      table := TableName(property.model);
      idIndex := supply.next;
      var name := supply.NewName();
      id := name;
      this.property := property.member;
      kind := EqualFilter;
      value := values;
      parameters := map[name := Param(values, None)];
    }

    constructor WhereIn(supply: NameSupply, property: Field, values: Value)
      modifies supply
      ensures Valid() && kind == InFilter
      ensures table == TableName(property.model) && this.property == property.member
      ensures value == values && idIndex == old(supply.next) && supply.next == old(supply.next) + 1
    {
      table := TableName(property.model);
      idIndex := supply.next;
      var name := supply.NewName();
      id := name;
      this.property := property.member;
      kind := InFilter;
      value := values;
      parameters := map[name := Param(values, None)];
    }

    /** Adds one conjunctive clause naming the filter's id, and binds the value under the id. */
    method ApplyToBuilder(builder: SqlBuilder, ghost supply: NameSupply)
      requires Valid() && idIndex < supply.next && builder.FreshFor(supply)
      modifies builder
      ensures builder.wheres == old(builder.wheres) + [Clause(And, PagingFilterSql(kind, table, property, id))]
      ensures builder.parameters == old(builder.parameters)[id := Param(value, None)]
      ensures builder.selects == old(builder.selects) && builder.joins == old(builder.joins)
      ensures builder.FreshFor(supply)
    {
      var _ := builder.Where(PagingFilterSql(kind, table, property, id), parameters);
      assert builder.parameters == old(builder.parameters)[id := Param(value, None)];
      forall j: nat | supply.next <= j ensures ParamName(j) !in builder.parameters {
        ParamNamesDistinct(j, idIndex);
      }
    }

    /** Whether a row whose column holds `column` passes the filter: equality, or membership
        in the bound collection. */
    predicate Admits(column: Value) {
      FilterAdmits(kind, value, column)
    }
  }

  class PagingSpec<T> {
    var page: int
    var pageSize: int
    var totalRecords: int
    var sortKey: Option<string>
    var sortDirection: SortDirection
    var records: seq<T>
    var filterExpressions: seq<PagingFilter>

    /** A new spec starts with an empty filter list. */
    constructor ()
      ensures filterExpressions == [] && records == []
      ensures page == 0 && pageSize == 0 && totalRecords == 0
      ensures sortKey == None && sortDirection == Default
    {
      page, pageSize, totalRecords := 0, 0, 0;
      sortKey, sortDirection := None, Default;
      records, filterExpressions := [], [];
    }

    method AddFilter(f: PagingFilter)
      modifies this
      ensures filterExpressions == old(filterExpressions) + [f]
      ensures page == old(page) && pageSize == old(pageSize) && totalRecords == old(totalRecords)
      ensures sortKey == old(sortKey) && sortDirection == old(sortDirection) && records == old(records)
    {
      filterExpressions := filterExpressions + [f];
    }
  }
}
