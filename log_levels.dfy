/** The level filter of the log listing. A requested level name selects the log entries at
    that level or more severe: the levels form a ladder from `Fatal` down to `Trace`, and
    each name admits a prefix of it. */
module LogLevels {
  import opened Wrappers
  import opened SqlBuilders
  import opened Paging

  /** The stored level names, most severe first. */
  const Ladder: seq<string> := ["Fatal", "Error", "Warn", "Info", "Debug", "Trace"]

  /** The level names a request may ask for, in ladder order. */
  const LevelNames: seq<string> := ["fatal", "error", "warn", "info", "debug", "trace"]

  /** A paging filter on the `Level` column, before a parameter name is drawn for it. */
  datatype LevelFilter = LevelFilter(kind: FilterKind, value: Value)

  function Texts(s: seq<string>): (r: seq<Value>)
    ensures |r| == |s| && forall i :: 0 <= i < |s| ==> r[i] == TextValue(s[i])
  {
    seq(|s|, i requires 0 <= i < |s| => TextValue(s[i]))
  }

  /** The place of a requested name on the ladder. */
  function Rank(name: string): (k: nat)
    requires name in LevelNames
    ensures k < |LevelNames| && LevelNames[k] == name
  {
    if name == "fatal" then 0
    else if name == "error" then 1
    else if name == "warn" then 2
    else if name == "info" then 3
    else if name == "debug" then 4
    else 5
  }

  /** The `switch` on the requested level: `fatal` is an equality with `Fatal`, every other
      known name an `IN` over the ladder down to its own level, and an unknown name no filter. */
  function LevelFilterFor(name: string): (r: Option<LevelFilter>)
    ensures r.None? <==> name !in LevelNames
    ensures name == "fatal" ==> r == Some(LevelFilter(EqualFilter, TextValue(Ladder[0])))
    ensures name in LevelNames && name != "fatal" ==> r == Some(LevelFilter(InFilter, ListValue(Texts(Ladder[..Rank(name) + 1]))))
  {
    match name
    case "fatal" => Some(LevelFilter(EqualFilter, TextValue("Fatal")))
    case "error" =>
      assert Texts(Ladder[..2]) == [TextValue("Fatal"), TextValue("Error")];
      Some(LevelFilter(InFilter, ListValue([TextValue("Fatal"), TextValue("Error")])))
    case "warn" =>
      assert Texts(Ladder[..3]) == [TextValue("Fatal"), TextValue("Error"), TextValue("Warn")];
      Some(LevelFilter(InFilter, ListValue([TextValue("Fatal"), TextValue("Error"), TextValue("Warn")])))
    case "info" =>
      assert Texts(Ladder[..4]) == [TextValue("Fatal"), TextValue("Error"), TextValue("Warn"), TextValue("Info")];
      Some(LevelFilter(InFilter, ListValue([TextValue("Fatal"), TextValue("Error"), TextValue("Warn"), TextValue("Info")])))
    case "debug" =>
      assert Texts(Ladder[..5]) == [TextValue("Fatal"), TextValue("Error"), TextValue("Warn"), TextValue("Info"), TextValue("Debug")];
      Some(LevelFilter(InFilter, ListValue([TextValue("Fatal"), TextValue("Error"), TextValue("Warn"), TextValue("Info"), TextValue("Debug")])))
    case "trace" =>
      assert Texts(Ladder[..6]) == [TextValue("Fatal"), TextValue("Error"), TextValue("Warn"), TextValue("Info"), TextValue("Debug"), TextValue("Trace")];
      Some(LevelFilter(InFilter, ListValue([TextValue("Fatal"), TextValue("Error"), TextValue("Warn"), TextValue("Info"), TextValue("Debug"), TextValue("Trace")])))
    case _ => None
  }

  /** A requested level admits exactly the entries at its own level or more severe. */
  lemma LevelFilterAdmits(name: string, level: string)
    requires name in LevelNames
    ensures var f := LevelFilterFor(name).value;
            FilterAdmits(f.kind, f.value, TextValue(level)) <==> level in Ladder[..Rank(name) + 1]
  {
    var prefix := Ladder[..Rank(name) + 1];
    if name != "fatal" {
      assert TextValue(level) in Texts(prefix) <==> level in prefix by {
        if level in prefix {
          var i :| 0 <= i < |prefix| && prefix[i] == level;
          assert Texts(prefix)[i] == TextValue(level);
        }
      }
    }
  }

  /** Each less severe name admits strictly more levels than the names above it. */
  lemma LadderGrows(a: string, b: string)
    requires a in LevelNames && b in LevelNames && Rank(a) < Rank(b)
    ensures Ladder[..Rank(a) + 1] < Ladder[..Rank(b) + 1]
    ensures Ladder[Rank(b)] in Ladder[..Rank(b) + 1] && Ladder[Rank(b)] !in Ladder[..Rank(a) + 1]
  {
    assert Ladder[..Rank(a) + 1] == Ladder[..Rank(b) + 1][..Rank(a) + 1];
    assert Ladder[Rank(b)] == Ladder[..Rank(b) + 1][Rank(b)];
  }

  /** The filter the `switch` appends, if any, for the requested level `level`. */
  function LevelFilterOf(level: Option<string>): Option<LevelFilter> {
    if level.Some? then LevelFilterFor(level.value) else None
  }

  /** `f` is the paging filter on `Logs.Level` for `chosen`, named by the supply's
      `idIndex`-th name. */
  ghost predicate IsLevelFilter(f: PagingFilter, chosen: LevelFilter, idIndex: nat) {
    f.Valid() && f.idIndex == idIndex && f.table == TableName(LogModel) && f.property == "Level" &&
    f.kind == chosen.kind && f.value == chosen.value
  }

  /** The `switch` of both log endpoints: appends the level filter on `Logs.Level` the
      requested name calls for, drawing its parameter name from `supply`, and nothing for
      an absent or unknown name. Nothing else in the spec changes. */
  method AddLevelFilter<T>(pageSpec: PagingSpec<T>, level: Option<string>, supply: NameSupply)
    modifies pageSpec, supply
    ensures LevelFilterOf(level).None? ==> pageSpec.filterExpressions == old(pageSpec.filterExpressions) && supply.next == old(supply.next)
    ensures LevelFilterOf(level).Some? ==>
              |pageSpec.filterExpressions| == |old(pageSpec.filterExpressions)| + 1 &&
              pageSpec.filterExpressions[..|old(pageSpec.filterExpressions)|] == old(pageSpec.filterExpressions) &&
              supply.next == old(supply.next) + 1
    ensures LevelFilterOf(level).Some? ==>
              fresh(pageSpec.filterExpressions[|old(pageSpec.filterExpressions)|]) &&
              IsLevelFilter(pageSpec.filterExpressions[|old(pageSpec.filterExpressions)|], LevelFilterOf(level).value, old(supply.next))
    ensures pageSpec.page == old(pageSpec.page) && pageSpec.pageSize == old(pageSpec.pageSize)
    ensures pageSpec.sortKey == old(pageSpec.sortKey) && pageSpec.sortDirection == old(pageSpec.sortDirection)
    ensures pageSpec.records == old(pageSpec.records) && pageSpec.totalRecords == old(pageSpec.totalRecords)
  {
    var chosen := LevelFilterOf(level);
    if chosen.Some? {
      var f: PagingFilter;
      if chosen.value.kind == EqualFilter {
        f := new PagingFilter.WhereEqual(supply, Field(LogModel, "Level"), chosen.value.value);
      } else {
        f := new PagingFilter.WhereIn(supply, Field(LogModel, "Level"), chosen.value.value);
      }
      pageSpec.AddFilter(f);
    }
  }
}
