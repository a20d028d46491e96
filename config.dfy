/** `ConfigRepository`: the key/value settings table. `Get` reads the one row with a key
    (`QuerySingleOrDefault`), `Upsert` inserts a new row for a new key and otherwise
    rewrites the value of the stored row. The store keeps ids unique (primary key) and keys
    unique (unique index), and gives an inserted row an id above every stored id. */
module ConfigRepositories {
  import opened Wrappers
  import opened Tables

  datatype Config = Config(id: int, key: string, value: string)

  /** The answer of `QuerySingleOrDefault`: no row (null), the one row, or an exception
      because more than one row has the key. */
  datatype Lookup = Absent | Found(config: Config) | MoreThanOne

  function KeyIs(key: string): Config -> bool {
    (c: Config) => c.key == key
  }

  /** The store's constraints on the table and the next id an insert assigns. */
  ghost predicate ValidTable(records: seq<Config>, nextId: int) {
    (forall i, j :: 0 <= i < j < |records| ==> records[i].id != records[j].id && records[i].key != records[j].key) &&
    (forall i :: 0 <= i < |records| ==> records[i].id < nextId)
  }

  /** `Get`: the row with the key, none when no row has it. */
  function Get(records: seq<Config>, key: string): (r: Lookup)
    ensures r.Absent? <==> forall c :: c in records ==> c.key != key
    ensures r.Found? ==> r.config in records && r.config.key == key
  {
    var rows := Filter(records, KeyIs(key));
    assert rows != [] ==> rows[0] in rows;
    if rows == [] then Absent
    else if |rows| == 1 then Found(rows[0])
    else MoreThanOne
  }

  /** `Update`: the stored row with `c`'s id takes `c`'s columns. */
  function Replace(records: seq<Config>, c: Config): (r: seq<Config>)
    ensures |r| == |records|
    ensures forall i :: 0 <= i < |r| ==> r[i] == if records[i].id == c.id then c else records[i]
  {
    if records == [] then []
    else [if records[0].id == c.id then c else records[0]] + Replace(records[1..], c)
  }

  /** The table after `Upsert(key, value)`; unchanged when the lookup throws. */
  function Upserted(records: seq<Config>, nextId: int, key: string, value: string): seq<Config> {
    match Get(records, key)
    case Absent => records + [Config(nextId, key, value)]
    case Found(c) => Replace(records, c.(value := value))
    case MoreThanOne => records
  }

  class ConfigRepository {
    var records: seq<Config>
    var nextId: int

    constructor (records: seq<Config>, nextId: int)
      ensures this.records == records && this.nextId == nextId
    {
      this.records := records;
      this.nextId := nextId;
    }

    /** `Upsert`: a new key is inserted under the next id; a stored key keeps its row and
        id and takes the new value. The answer is the saved row, or none when the lookup
        throws. */
    method Upsert(key: string, value: string) returns (r: Option<Config>)
      modifies this
      ensures records == Upserted(old(records), old(nextId), key, value)
      ensures nextId == if old(Get(records, key)).Absent? then old(nextId) + 1 else old(nextId)
      ensures r.None? <==> old(Get(records, key)).MoreThanOne?
      ensures r.Some? ==> r.value.key == key && r.value.value == value
      ensures old(Get(records, key)).Absent? ==> r == Some(Config(old(nextId), key, value))
      ensures old(Get(records, key)).Found? ==> r.Some? && r.value.id == old(Get(records, key)).config.id
      ensures old(ValidTable(records, nextId)) ==> ValidTable(records, nextId)
    {
      var dbValue := Get(records, key);
      ghost var before, valid := records, ValidTable(records, nextId);
      match dbValue
      case Absent =>
        var c := Config(nextId, key, value);
        records := records + [c];
        nextId := nextId + 1;
        r := Some(c);
        if valid {
          UpsertKeepsValid(before, nextId - 1, key, value);
        }
      case Found(stored) =>
        var updated := stored.(value := value);
        records := Replace(records, updated);
        r := Some(updated);
        if valid {
          UpsertKeepsValid(before, nextId, key, value);
        }
      case MoreThanOne =>
        r := None;
    }
  }

  /** In a valid table the stored row of a key is the only row with its id. */
  lemma FoundOwnsId(records: seq<Config>, nextId: int, key: string, x: Config)
    requires ValidTable(records, nextId) && Get(records, key).Found? && x in records
    requires x.id == Get(records, key).config.id
    ensures x == Get(records, key).config
  {
    var c := Get(records, key).config;
    var i :| 0 <= i < |records| && records[i] == x;
    var j :| 0 <= j < |records| && records[j] == c;
    assert i == j;
  }

  /** Replacing rows and then selecting a key selects and then replaces, when every row
      carrying the replacement's id also carries its key. */
  lemma {:induction false} FilterReplace(records: seq<Config>, c: Config, k: string)
    requires forall x :: x in records && x.id == c.id ==> x.key == c.key
    ensures Filter(Replace(records, c), KeyIs(k)) == Replace(Filter(records, KeyIs(k)), c)
  {
    if records != [] {
      var head, tail := records[0], records[1..];
      var next := if head.id == c.id then c else head;
      assert forall x :: x in tail ==> x in records;
      FilterReplace(tail, c, k);
      ConsTail(records);
      assert [next][1..] == [] && [head][1..] == [];
      assert Filter([next], KeyIs(k)) == Replace(Filter([head], KeyIs(k)), c);
      FilterConcat([next], Replace(tail, c), KeyIs(k));
      FilterConcat([head], tail, KeyIs(k));
      ReplaceConcat(Filter([head], KeyIs(k)), Filter(tail, KeyIs(k)), c);
    }
  }

  lemma ReplaceConcat(a: seq<Config>, b: seq<Config>, c: Config)
    ensures Replace(a + b, c) == Replace(a, c) + Replace(b, c)
  {
  }

  /** Replacing by an id no row carries changes nothing. */
  lemma ReplaceAbsentId(records: seq<Config>, c: Config)
    requires forall x :: x in records ==> x.id != c.id
    ensures Replace(records, c) == records
  {
    assert forall i :: 0 <= i < |records| ==> records[i] in records;
  }

  /** After `Upsert(key, value)` on a valid table, `Get(key)` answers a row holding the key
      and the value: the old row's id for a stored key, the next id for a new one. */
  lemma UpsertThenGet(records: seq<Config>, nextId: int, key: string, value: string)
    requires ValidTable(records, nextId)
    ensures var after := Get(Upserted(records, nextId, key, value), key);
            after.Found? && after.config.key == key && after.config.value == value &&
            after.config.id == (if Get(records, key).Found? then Get(records, key).config.id else nextId)
  {
    var added := Config(nextId, key, value);
    match Get(records, key)
    case Absent =>
      FilterConcat(records, [added], KeyIs(key));
      FilterNone(records, KeyIs(key));
      assert [added][1..] == [];
      assert Filter(records + [added], KeyIs(key)) == [added];
    case Found(c) =>
      var updated := c.(value := value);
      forall x | x in records && x.id == updated.id ensures x.key == updated.key {
        FoundOwnsId(records, nextId, key, x);
      }
      FilterReplace(records, updated, key);
      assert Filter(records, KeyIs(key)) == [c];
      assert Replace([c], updated) == [updated];
    case MoreThanOne =>
      assert false by {
        KeyUniqueAtMostOne(records, nextId, key);
      }
  }

  /** A valid table holds at most one row per key. */
  lemma KeyUniqueAtMostOne(records: seq<Config>, nextId: int, key: string)
    requires ValidTable(records, nextId)
    ensures |Filter(records, KeyIs(key))| <= 1
  {
    if records != [] {
      var tail := records[1..];
      assert ValidTable(tail, nextId) by {
        forall i, j | 0 <= i < j < |tail| ensures tail[i].id != tail[j].id && tail[i].key != tail[j].key {
          assert tail[i] == records[i + 1] && tail[j] == records[j + 1];
        }
      }
      KeyUniqueAtMostOne(tail, nextId, key);
      if records[0].key == key {
        forall x | x in tail ensures !KeyIs(key)(x) {
          var j :| 0 <= j < |tail| && tail[j] == x;
          assert records[j + 1] == x;
        }
        FilterNone(tail, KeyIs(key));
      }
    }
  }

  /** `Upsert(key, value)` leaves the answer of `Get` for every other key as it was. */
  lemma UpsertKeepsOtherKeys(records: seq<Config>, nextId: int, key: string, value: string, other: string)
    requires ValidTable(records, nextId) && other != key
    ensures Get(Upserted(records, nextId, key, value), other) == Get(records, other)
  {
    var added := Config(nextId, key, value);
    match Get(records, key)
    case Absent =>
      FilterConcat(records, [added], KeyIs(other));
      assert [added][1..] == [];
      assert Filter(records + [added], KeyIs(other)) == Filter(records, KeyIs(other));
    case Found(c) =>
      var updated := c.(value := value);
      forall x | x in records && x.id == updated.id ensures x.key == updated.key {
        FoundOwnsId(records, nextId, key, x);
      }
      FilterReplace(records, updated, other);
      forall x | x in Filter(records, KeyIs(other)) ensures x.id != updated.id {
        if x.id == updated.id {
          FoundOwnsId(records, nextId, key, x);
        }
      }
      ReplaceAbsentId(Filter(records, KeyIs(other)), updated);
    case MoreThanOne =>
  }

  /** `Upsert` keeps ids and keys unique and every id below the next one. */
  lemma UpsertKeepsValid(records: seq<Config>, nextId: int, key: string, value: string)
    requires ValidTable(records, nextId)
    ensures ValidTable(Upserted(records, nextId, key, value), if Get(records, key).Absent? then nextId + 1 else nextId)
  {
    var after := Upserted(records, nextId, key, value);
    match Get(records, key)
    case Absent =>
      forall i | 0 <= i < |records| ensures records[i].key != key {
        assert records[i] in records;
      }
    case Found(c) =>
      var updated := c.(value := value);
      forall i | 0 <= i < |records| ensures after[i].id == records[i].id && after[i].key == records[i].key {
        if records[i].id == updated.id {
          FoundOwnsId(records, nextId, key, records[i]);
        }
      }
    case MoreThanOne =>
  }
}
