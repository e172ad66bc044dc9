/**
 * The database that stackpm keeps (stackpm/models.py), as the sync code
 * sees it: one table of rows per model, each row a map from column name to
 * value, keyed by its primary key, together with the log of Sync rows.
 * Uniqueness constraints of the schema are the store's invariant: a commit
 * that would break one fails with an integrity error.
 */
module Store {
  import opened Common

  /** A column value: SQL NULL, a number (dates are day numbers) or a string. */
  datatype Value = Null | Num(n: int) | Text(s: string)

  /** A row, or a partial row to write: column name to value. */
  type Fields = map<string, Value>

  /** A natural key: the values of the key columns, in order. */
  type Key = seq<Value>

  /** A table: primary key to row. */
  type Table = map<nat, Fields>

  /** The tables the sync code writes. */
  datatype Model = Users | Iterations | Tasks | Events

  /** The value of column `c` of a row; an unset attribute reads as NULL. */
  function Column(row: Fields, c: string): (v: Value)
    ensures c in row ==> v == row[c]
    ensures c !in row ==> v == Null
  {
    if c in row then row[c] else Null
  }

  /** The key of a row under the key columns `cols`. */
  function KeyOf(row: Fields, cols: seq<string>): (k: Key)
    ensures |k| == |cols|
    decreases |cols|
  {
    if cols == [] then [] else [Column(row, cols[0])] + KeyOf(row, cols[1..])
  }

  /** The key holds the value of each key column, in order. */
  lemma {:induction false} KeyOfColumns(row: Fields, cols: seq<string>)
    ensures forall i :: 0 <= i < |cols| ==> KeyOf(row, cols)[i] == Column(row, cols[i])
    decreases |cols|
  {
    if cols != [] {
      KeyOfColumns(row, cols[1..]);
      assert forall i :: 1 <= i < |cols| ==> KeyOf(row, cols)[i] == KeyOf(row, cols[1..])[i - 1];
    }
  }

  /** A key with a NULL part, which SQL never counts as a duplicate. */
  predicate HasNull(k: Key)
  {
    exists i :: 0 <= i < |k| && k[i] == Null
  }

  /** No two rows of `t` share a NULL-free key under the columns `cols`. */
  predicate UniqueOn(t: Table, cols: seq<string>)
  {
    forall a, b :: a in t && b in t && a != b && !HasNull(KeyOf(t[a], cols)) ==>
      KeyOf(t[a], cols) != KeyOf(t[b], cols)
  }

  /**
   * The unique columns and indexes of each model: a User's email, pm_name
   * and cal_name; an Iteration's and a Task's ext_id; an Event's
   * (task_id, type, occured_on).
   */
  function Constraints(m: Model): seq<seq<string>>
  {
    match m
    case Users => [["email"], ["pm_name"], ["cal_name"]]
    case Iterations => [["ext_id"]]
    case Tasks => [["ext_id"]]
    case Events => [["task_id", "type", "occured_on"]]
  }

  /** Every uniqueness constraint of model `m` holds in `t`. */
  predicate Unique(m: Model, t: Table)
  {
    forall i :: 0 <= i < |Constraints(m)| ==> UniqueOn(t, Constraints(m)[i])
  }

  /** The `type` enumeration of a Sync row. */
  datatype SyncType = Full | IterationSync | TaskSync | HolidaySync | VacationSync

  /** A Sync row: the latest update time seen by a sync of some type. */
  datatype SyncRow = SyncRow(lastSeenUpdate: int, kind: SyncType)

  /**
   * A Python dictionary built by the sync loops: its keys in insertion
   * order and its contents.
   */
  datatype Dict<V> = Dict(order: seq<Key>, entries: map<Key, V>)
  {
    /** The order lists every key exactly once. */
    ghost predicate WellFormed()
    {
      && (forall i, j :: 0 <= i < j < |order| ==> order[i] != order[j])
      && (forall k :: k in entries <==> k in order)
    }

    /** `len(d)`. */
    function Size(): nat
    {
      |order|
    }
  }

  /** The empty dictionary `{}`. */
  function EmptyDict<V>(): (d: Dict<V>)
    ensures d.WellFormed() && d.Size() == 0 && d.entries == map[]
  {
    Dict([], map[])
  }

  /**
   * `d[k] = v`: a new key goes to the end of the order, an existing one
   * keeps its place and takes the new value.
   */
  function Put<V>(d: Dict<V>, k: Key, v: V): (e: Dict<V>)
    requires d.WellFormed()
    ensures e.WellFormed() && e.entries == d.entries[k := v]
    ensures e.order == if k in d.entries then d.order else d.order + [k]
  {
    if k in d.entries then Dict(d.order, d.entries[k := v]) else Dict(d.order + [k], d.entries[k := v])
  }

  /** `d.setdefault(k, v)`: the first value stored under a key stays. */
  function SetDefault<V>(d: Dict<V>, k: Key, v: V): (e: Dict<V>)
    requires d.WellFormed()
    ensures e.WellFormed() && k in e.entries
    ensures k in d.entries ==> e == d
    ensures k !in d.entries ==> e.entries == d.entries[k := v] && e.order == d.order + [k]
  {
    if k in d.entries then d else Put(d, k, v)
  }

  /** The table of model `m` among `tables`; a table never written is empty. */
  function TableOf(tables: map<Model, Table>, m: Model): Table
  {
    if m in tables then tables[m] else map[]
  }

  /**
   * The invariant of the stored tables: every row id lies below the next
   * id to hand out, and every uniqueness constraint holds.
   */
  ghost predicate TablesValid(tables: map<Model, Table>, nextId: nat)
  {
    && (forall m: Model, id :: id in TableOf(tables, m) ==> id < nextId)
    && (forall m: Model :: Unique(m, TableOf(tables, m)))
  }

  /**
   * Replacing one table by a table that meets its constraints, with ids
   * below a next id no smaller than before, keeps the invariant.
   */
  lemma ReplaceTable(tables: map<Model, Table>, nextId: nat, m: Model, t: Table, next: nat)
    requires TablesValid(tables, nextId) && nextId <= next
    requires Unique(m, t) && forall id :: id in t ==> id < next
    ensures TablesValid(tables[m := t], next)
  {
    var after := tables[m := t];
    forall m': Model, id | id in TableOf(after, m')
      ensures id < next
    {
      if m' != m {
        assert TableOf(after, m') == TableOf(tables, m');
      }
    }
    forall m': Model
      ensures Unique(m', TableOf(after, m'))
    {
      if m' != m {
        assert TableOf(after, m') == TableOf(tables, m');
      }
    }
  }

  /** The rows of the database and the log of syncs. */
  class Database {
    var tables: map<Model, Table>
    var syncs: seq<SyncRow>
    var nextId: nat

    /** The table of model `m`; a table never written is empty. */
    function Rows(m: Model): Table
      reads this`tables
    {
      TableOf(tables, m)
    }

    /** The invariant of the stored tables. */
    ghost predicate Valid()
      reads this`tables, this`nextId
    {
      TablesValid(tables, nextId)
    }

    /** An empty database. */
    constructor ()
      ensures Valid() && syncs == [] && nextId == 0
      ensures forall m: Model :: Rows(m) == map[]
    {
      tables := map[];
      syncs := [];
      nextId := 0;
    }

    /**
     * The commit of a batch: the table of model `m` becomes `t`, whose ids
     * lie below the new next id; allowed only when `t` keeps the model's
     * uniqueness constraints.
     */
    method Commit(m: Model, t: Table, next: nat)
      requires Valid() && nextId <= next
      requires Unique(m, t) && forall id :: id in t ==> id < next
      modifies this`tables, this`nextId
      ensures Valid() && nextId == next
      ensures Rows(m) == t
      ensures forall other :: other != m ==> Rows(other) == old(Rows(other))
    {
      ReplaceTable(tables, nextId, m, t, next);
      tables := tables[m := t];
      nextId := next;
    }
  }
}
