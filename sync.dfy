/**
 * Reconciling the local database with the project-management tool
 * (stackpm/sync.py): the keyed upsert `_batch_sync`, the checkpoint log
 * `_sync_since`/`_record_sync`, and the iteration and task syncs built on
 * them, which flush their work in batches of SYNC_BATCH entries.
 *
 * The link's `iterations` and `tasks` calls, which reach the network, are
 * parameters: functions from the `since` and `ids` arguments to the
 * records they return.
 */
module Sync {
  import opened Common
  import opened Store

  /** SYNC_BATCH: the number of entries gathered before a flush. */
  const SyncBatch: nat := 100

  /** The exceptions a sync raises: ValueError for no key column, IntegrityError on commit. */
  datatype SyncError = NoKeyFields | IntegrityError(model: Model)

  /** `model(**fields)`: building a new row (a Task's constructor also caches its work days). */
  type Construct = Fields -> Fields

  // ---------------------------------------------------------------------
  // _batch_sync as a function of the stored table

  /** A stored row after the overwrite loop: the batch entry of its key written over it. */
  function PatchRow(row: Fields, batch: map<Key, Fields>, keyFields: seq<string>): Fields
  {
    var k := KeyOf(row, keyFields);
    if k in batch then row + batch[k] else row
  }

  /** The stored table after the overwrite loop. */
  function Patched(t: Table, batch: map<Key, Fields>, keyFields: seq<string>): (p: Table)
    ensures p.Keys == t.Keys
    ensures forall id :: id in t ==> p[id] == PatchRow(t[id], batch, keyFields)
  {
    map id | id in t :: PatchRow(t[id], batch, keyFields)
  }

  /** The batch keys of the rows among `ids` that the query finds. */
  function MatchedAmong(t: Table, ids: set<nat>, batch: map<Key, Fields>,
                        keyFields: seq<string>): set<Key>
  {
    set id | id in ids && id in t && KeyOf(t[id], keyFields) in batch :: KeyOf(t[id], keyFields)
  }

  /** The batch keys that already have a stored row. */
  function Matched(t: Table, batch: map<Key, Fields>, keyFields: seq<string>): set<Key>
  {
    MatchedAmong(t, t.Keys, batch, keyFields)
  }

  /** A table after an upsert, the next free id and the ids given to the new rows' keys. */
  datatype Upserted = Upserted(table: Table, next: nat, created: map<Key, nat>)

  /**
   * The creation loop over the first `n` keys of the batch order: a new
   * row, with the next free id, for each key not `matched`.
   */
  function Create(base: Table, next: nat, order: seq<Key>, n: nat, batch: map<Key, Fields>,
                  matched: set<Key>, construct: Construct): Upserted
    requires n <= |order| && forall i :: 0 <= i < |order| ==> order[i] in batch
    decreases n
  {
    if n == 0 then Upserted(base, next, map[])
    else
      var u := Create(base, next, order, n - 1, batch, matched, construct);
      var k := order[n - 1];
      if k in matched then u
      else Upserted(u.table[u.next := construct(batch[k])], u.next + 1, u.created[k := u.next])
  }

  /** `_batch_sync` on the stored table `t` (when the batch and the key columns are not empty). */
  function Upsert(t: Table, next: nat, d: Dict<Fields>, keyFields: seq<string>,
                  construct: Construct): Upserted
    requires d.WellFormed()
  {
    assert forall i :: 0 <= i < |d.order| ==> d.order[i] in d.order;
    Create(Patched(t, d.entries, keyFields), next, d.order, |d.order|, d.entries,
           Matched(t, d.entries, keyFields), construct)
  }

  /** The keys the creation loop gives rows to: those of the first `n` keys not `matched`. */
  lemma {:induction false} CreateKeySet(base: Table, next: nat, order: seq<Key>, n: nat,
                                        batch: map<Key, Fields>, matched: set<Key>,
                                        construct: Construct)
    requires n <= |order| && forall i :: 0 <= i < |order| ==> order[i] in batch
    ensures var u := Create(base, next, order, n, batch, matched, construct);
            forall k :: k in u.created <==> k in order[..n] && k !in matched
    decreases n
  {
    if n > 0 {
      CreateKeySet(base, next, order, n - 1, batch, matched, construct);
      assert order[..n] == order[..n - 1] + [order[n - 1]];
    }
  }

  /** Without repeated keys, the creation loop hands out one id per created key. */
  lemma {:induction false} CreateCount(base: Table, next: nat, order: seq<Key>, n: nat,
                                       batch: map<Key, Fields>, matched: set<Key>,
                                       construct: Construct)
    requires n <= |order| && forall i :: 0 <= i < |order| ==> order[i] in batch
    requires forall i, j :: 0 <= i < j < |order| ==> order[i] != order[j]
    ensures var u := Create(base, next, order, n, batch, matched, construct);
            u.next == next + |u.created|
    decreases n
  {
    if n > 0 {
      var k := order[n - 1];
      CreateCount(base, next, order, n - 1, batch, matched, construct);
      if k !in matched {
        CreateKeySet(base, next, order, n - 1, batch, matched, construct);
        NotEarlier(order, n - 1);
      }
    }
  }

  /** The keys the creation loop gives rows to, and the ids it hands out. */
  lemma CreateKeys(base: Table, next: nat, order: seq<Key>, n: nat,
                   batch: map<Key, Fields>, matched: set<Key>, construct: Construct)
    requires n <= |order| && forall i :: 0 <= i < |order| ==> order[i] in batch
    requires forall i, j :: 0 <= i < j < |order| ==> order[i] != order[j]
    ensures var u := Create(base, next, order, n, batch, matched, construct);
            && u.next == next + |u.created|
            && (forall k :: k in u.created <==> k in order[..n] && k !in matched)
  {
    CreateKeySet(base, next, order, n, batch, matched, construct);
    CreateCount(base, next, order, n, batch, matched, construct);
  }

  /** In a list without repeats, the key at index `i` is not among the keys before it. */
  lemma NotEarlier(order: seq<Key>, i: nat)
    requires i < |order| && forall a, b :: 0 <= a < b < |order| ==> order[a] != order[b]
    ensures order[i] !in order[..i]
  {
    forall a | 0 <= a < i
      ensures order[..i][a] != order[i]
    {
      assert order[..i][a] == order[a];
    }
  }

  /** The ids of the creation loop: stored rows kept, new rows numbered from `next` on. */
  lemma {:induction false} CreateIds(base: Table, next: nat, order: seq<Key>, n: nat,
                                     batch: map<Key, Fields>, matched: set<Key>,
                                     construct: Construct)
    requires n <= |order| && forall i :: 0 <= i < |order| ==> order[i] in batch
    requires forall id :: id in base ==> id < next
    ensures var u := Create(base, next, order, n, batch, matched, construct);
            && next <= u.next
            && (forall id :: id in base ==> id in u.table && u.table[id] == base[id])
            && (forall id :: id in u.table ==> id in base || next <= id < u.next)
            && (forall id :: next <= id < u.next ==> id in u.table)
            && (forall k :: k in u.created ==> next <= u.created[k] < u.next)
    decreases n
  {
    if n > 0 {
      CreateIds(base, next, order, n - 1, batch, matched, construct);
    }
  }

  /** Each created key's row is built from its batch entry. */
  lemma {:induction false} CreateBuilt(base: Table, next: nat, order: seq<Key>, n: nat,
                                       batch: map<Key, Fields>, matched: set<Key>,
                                       construct: Construct)
    requires n <= |order| && forall i :: 0 <= i < |order| ==> order[i] in batch
    requires forall id :: id in base ==> id < next
    ensures var u := Create(base, next, order, n, batch, matched, construct);
            forall k :: k in u.created ==>
              k in batch && u.created[k] in u.table && u.table[u.created[k]] == construct(batch[k])
    decreases n
  {
    if n > 0 {
      var k := order[n - 1];
      CreateIds(base, next, order, n - 1, batch, matched, construct);
      CreateBuilt(base, next, order, n - 1, batch, matched, construct);
      var u := Create(base, next, order, n - 1, batch, matched, construct);
      if k !in matched {
        var v := Create(base, next, order, n, batch, matched, construct);
        assert v.table == u.table[u.next := construct(batch[k])];
        assert v.created == u.created[k := u.next];
        forall k' | k' in v.created
          ensures v.created[k'] in v.table && v.table[v.created[k']] == construct(batch[k'])
        {
          if k' != k {
            assert v.created[k'] == u.created[k'] < u.next;
          }
        }
      }
    }
  }

  /** No two created keys share a row id. */
  lemma {:induction false} CreateInjective(base: Table, next: nat, order: seq<Key>, n: nat,
                                           batch: map<Key, Fields>, matched: set<Key>,
                                           construct: Construct)
    requires n <= |order| && forall i :: 0 <= i < |order| ==> order[i] in batch
    requires forall id :: id in base ==> id < next
    ensures var u := Create(base, next, order, n, batch, matched, construct);
            forall k1, k2 :: k1 in u.created && k2 in u.created && k1 != k2 ==>
              u.created[k1] != u.created[k2]
    decreases n
  {
    if n > 0 {
      CreateIds(base, next, order, n - 1, batch, matched, construct);
      CreateInjective(base, next, order, n - 1, batch, matched, construct);
    }
  }

  /** Every row the creation loop adds belongs to some created key. */
  lemma {:induction false} CreateOnto(base: Table, next: nat, order: seq<Key>, n: nat,
                                      batch: map<Key, Fields>, matched: set<Key>,
                                      construct: Construct)
    requires n <= |order| && forall i :: 0 <= i < |order| ==> order[i] in batch
    requires forall i, j :: 0 <= i < j < |order| ==> order[i] != order[j]
    requires forall id :: id in base ==> id < next
    ensures var u := Create(base, next, order, n, batch, matched, construct);
            forall id :: id in u.table && id !in base ==> exists k :: k in u.created && u.created[k] == id
    decreases n
  {
    if n > 0 {
      var k := order[n - 1];
      CreateOnto(base, next, order, n - 1, batch, matched, construct);
      var u := Create(base, next, order, n - 1, batch, matched, construct);
      if k !in matched {
        CreateKeySet(base, next, order, n - 1, batch, matched, construct);
        NotEarlier(order, n - 1);
        assert k !in u.created;
        var v := Create(base, next, order, n, batch, matched, construct);
        assert v.created == u.created[k := u.next];
        forall id | id in v.table && id !in base
          ensures exists k' :: k' in v.created && v.created[k'] == id
        {
          if id == u.next {
            assert v.created[k] == id;
          } else {
            var k' :| k' in u.created && u.created[k'] == id;
            assert v.created[k'] == id;
          }
        }
      }
    }
  }

  /** Each created key's row is built from its batch entry, and no two keys share a row. */
  lemma CreateRows(base: Table, next: nat, order: seq<Key>, n: nat,
                   batch: map<Key, Fields>, matched: set<Key>, construct: Construct)
    requires n <= |order| && forall i :: 0 <= i < |order| ==> order[i] in batch
    requires forall i, j :: 0 <= i < j < |order| ==> order[i] != order[j]
    requires forall id :: id in base ==> id < next
    ensures var u := Create(base, next, order, n, batch, matched, construct);
            && (forall k :: k in u.created ==>
                  k in batch && u.created[k] in u.table && u.table[u.created[k]] == construct(batch[k]))
            && (forall k1, k2 :: k1 in u.created && k2 in u.created && k1 != k2 ==>
                  u.created[k1] != u.created[k2])
            && (forall id :: id in u.table && id !in base ==>
                  exists k :: k in u.created && u.created[k] == id)
  {
    CreateBuilt(base, next, order, n, batch, matched, construct);
    CreateInjective(base, next, order, n, batch, matched, construct);
    CreateOnto(base, next, order, n, batch, matched, construct);
  }

  /** The keys given new rows: the batch keys that had no stored row. */
  lemma UpsertCreates(t: Table, next: nat, d: Dict<Fields>, keyFields: seq<string>,
                      construct: Construct)
    requires d.WellFormed()
    ensures var u := Upsert(t, next, d, keyFields, construct);
            forall k :: k in u.created <==> k in d.entries && k !in Matched(t, d.entries, keyFields)
  {
    assert forall i :: 0 <= i < |d.order| ==> d.order[i] in d.order;
    assert d.order[..|d.order|] == d.order;
    CreateKeySet(Patched(t, d.entries, keyFields), next, d.order, |d.order|, d.entries,
                 Matched(t, d.entries, keyFields), construct);
  }

  /** Stored rows keep their ids and are patched; the other rows have fresh ids. */
  lemma UpsertKeeps(t: Table, next: nat, d: Dict<Fields>, keyFields: seq<string>,
                    construct: Construct)
    requires d.WellFormed() && forall id :: id in t ==> id < next
    ensures var u := Upsert(t, next, d, keyFields, construct);
            && (forall id :: id in t ==> id in u.table && u.table[id] == PatchRow(t[id], d.entries, keyFields))
            && (forall id :: id in u.table && id !in t ==> next <= id)
  {
    assert forall i :: 0 <= i < |d.order| ==> d.order[i] in d.order;
    CreateIds(Patched(t, d.entries, keyFields), next, d.order, |d.order|, d.entries,
              Matched(t, d.entries, keyFields), construct);
  }

  /** Each created key's row is `construct` of its batch entry, under a fresh id. */
  lemma UpsertBuilds(t: Table, next: nat, d: Dict<Fields>, keyFields: seq<string>,
                     construct: Construct)
    requires d.WellFormed() && forall id :: id in t ==> id < next
    ensures var u := Upsert(t, next, d, keyFields, construct);
            forall k :: k in u.created ==>
              && k in d.entries && next <= u.created[k] && u.created[k] in u.table
              && u.table[u.created[k]] == construct(d.entries[k])
  {
    assert forall i :: 0 <= i < |d.order| ==> d.order[i] in d.order;
    CreateIds(Patched(t, d.entries, keyFields), next, d.order, |d.order|, d.entries,
              Matched(t, d.entries, keyFields), construct);
    CreateBuilt(Patched(t, d.entries, keyFields), next, d.order, |d.order|, d.entries,
                Matched(t, d.entries, keyFields), construct);
  }

  /** Every new row of the upsert belongs to a created key. */
  lemma UpsertOnto(t: Table, next: nat, d: Dict<Fields>, keyFields: seq<string>,
                   construct: Construct)
    requires d.WellFormed() && forall id :: id in t ==> id < next
    ensures var u := Upsert(t, next, d, keyFields, construct);
            forall id :: id in u.table && id !in t ==> exists k :: k in u.created && u.created[k] == id
  {
    assert forall i :: 0 <= i < |d.order| ==> d.order[i] in d.order;
    CreateIds(Patched(t, d.entries, keyFields), next, d.order, |d.order|, d.entries,
              Matched(t, d.entries, keyFields), construct);
    CreateOnto(Patched(t, d.entries, keyFields), next, d.order, |d.order|, d.entries,
               Matched(t, d.entries, keyFields), construct);
  }

  /**
   * The upsert's table: every stored row is kept under its id and patched
   * by the batch entry of its key; the other rows are new, have fresh ids
   * `next .. u.next - 1`, and are exactly one row `construct(entry)` for
   * each batch key that had no stored row.
   */
  lemma UpsertSpec(t: Table, next: nat, d: Dict<Fields>, keyFields: seq<string>,
                   construct: Construct)
    requires d.WellFormed() && forall id :: id in t ==> id < next
    ensures var u := Upsert(t, next, d, keyFields, construct);
            && u.next == next + |u.created|
            && (forall id :: id in t ==> id in u.table && u.table[id] == PatchRow(t[id], d.entries, keyFields))
            && (forall id :: id in u.table ==> id in t || next <= id < u.next)
            && (forall id :: next <= id < u.next ==> id in u.table)
            && (forall k :: k in u.created <==> k in d.entries && k !in Matched(t, d.entries, keyFields))
            && (forall k :: k in u.created ==>
                  next <= u.created[k] < u.next && u.table[u.created[k]] == construct(d.entries[k]))
            && (forall k1, k2 :: k1 in u.created && k2 in u.created && k1 != k2 ==>
                  u.created[k1] != u.created[k2])
            && (forall id :: id in u.table && id !in t ==>
                  exists k :: k in u.created && u.created[k] == id)
  {
    assert forall i :: 0 <= i < |d.order| ==> d.order[i] in d.order;
    assert d.order[..|d.order|] == d.order;
    CreateIds(Patched(t, d.entries, keyFields), next, d.order, |d.order|, d.entries,
              Matched(t, d.entries, keyFields), construct);
    CreateKeys(Patched(t, d.entries, keyFields), next, d.order, |d.order|, d.entries,
               Matched(t, d.entries, keyFields), construct);
    CreateRows(Patched(t, d.entries, keyFields), next, d.order, |d.order|, d.entries,
               Matched(t, d.entries, keyFields), construct);
  }

  /** The upserted table's ids all lie below its next id. */
  lemma UpsertIds(t: Table, next: nat, d: Dict<Fields>, keyFields: seq<string>,
                  construct: Construct)
    requires d.WellFormed() && forall id :: id in t ==> id < next
    ensures var u := Upsert(t, next, d, keyFields, construct);
            next <= u.next && forall id :: id in u.table ==> id < u.next
  {
    assert forall i :: 0 <= i < |d.order| ==> d.order[i] in d.order;
    CreateIds(Patched(t, d.entries, keyFields), next, d.order, |d.order|, d.entries,
              Matched(t, d.entries, keyFields), construct);
  }

  /**
   * The overwrite: a stored row whose key is in the batch takes every
   * field of its batch entry and keeps its other fields; a stored row
   * whose key is not in the batch is unchanged.
   */
  lemma UpsertOverwrites(t: Table, next: nat, d: Dict<Fields>, keyFields: seq<string>,
                         construct: Construct, id: nat)
    requires d.WellFormed() && (forall i :: i in t ==> i < next) && id in t
    ensures var u := Upsert(t, next, d, keyFields, construct);
            var k := KeyOf(t[id], keyFields);
            && id in u.table
            && (k in d.entries ==>
                  && (forall c :: c in d.entries[k] ==> c in u.table[id] && u.table[id][c] == d.entries[k][c])
                  && (forall c :: c in t[id] && c !in d.entries[k] ==>
                        c in u.table[id] && u.table[id][c] == t[id][c])
                  && u.table[id].Keys == t[id].Keys + d.entries[k].Keys)
            && (k !in d.entries ==> u.table[id] == t[id])
  {
    UpsertSpec(t, next, d, keyFields, construct);
  }

  /** `p` carries every key column, with the values of `k`. */
  predicate KeyedBy(p: Fields, keyFields: seq<string>, k: Key)
  {
    |k| == |keyFields| && forall i :: 0 <= i < |keyFields| ==> keyFields[i] in p && p[keyFields[i]] == k[i]
  }

  /** `big` has every field of `small`, with the same value. */
  predicate Extends(big: Fields, small: Fields)
  {
    forall c :: c in small ==> c in big && big[c] == small[c]
  }

  lemma KeyOfKeyed(row: Fields, keyFields: seq<string>, k: Key)
    requires KeyedBy(row, keyFields, k)
    ensures KeyOf(row, keyFields) == k
  {
    KeyOfColumns(row, keyFields);
  }

  lemma ExtendsAbsorbs(big: Fields, small: Fields)
    requires Extends(big, small)
    ensures big + small == big
  {
  }

  /**
   * With a batch whose entries carry their own keys, and a constructor that
   * keeps the fields it is given, every batch key has a stored row with
   * that key after the upsert.
   */
  lemma UpsertCovers(t: Table, next: nat, d: Dict<Fields>, keyFields: seq<string>,
                     construct: Construct, k: Key)
    requires d.WellFormed() && forall id :: id in t ==> id < next
    requires forall k' :: k' in d.entries ==> KeyedBy(d.entries[k'], keyFields, k')
    requires forall k' :: k' in d.entries ==> Extends(construct(d.entries[k']), d.entries[k'])
    requires k in d.entries
    ensures var u := Upsert(t, next, d, keyFields, construct);
            k in Matched(u.table, d.entries, keyFields)
  {
    var u := Upsert(t, next, d, keyFields, construct);
    UpsertCreates(t, next, d, keyFields, construct);
    var p := d.entries[k];
    if k in u.created {
      UpsertBuilds(t, next, d, keyFields, construct);
      var id := u.created[k];
      assert KeyedBy(u.table[id], keyFields, k);
      KeyOfKeyed(u.table[id], keyFields, k);
    } else {
      assert k in Matched(t, d.entries, keyFields);
      var id :| id in t && KeyOf(t[id], keyFields) in d.entries && KeyOf(t[id], keyFields) == k;
      UpsertKeeps(t, next, d, keyFields, construct);
      assert u.table[id] == t[id] + p;
      assert KeyedBy(u.table[id], keyFields, k);
      KeyOfKeyed(u.table[id], keyFields, k);
    }
  }

  /** The key of the row `id` of `t` (empty when there is no such row). */
  function RowKey(t: Table, id: nat, keyFields: seq<string>): Key
  {
    if id in t then KeyOf(t[id], keyFields) else []
  }

  /** `t` has a row whose key columns hold `k`. */
  ghost predicate HasRow(t: Table, keyFields: seq<string>, k: Key)
  {
    exists id {:trigger RowKey(t, id, keyFields)} :: id in t && RowKey(t, id, keyFields) == k
  }

  /** Every row of `before` is still in `after`, under the same id and with the same key. */
  ghost predicate KeysKept(before: Table, after: Table, keyFields: seq<string>)
  {
    forall id {:trigger RowKey(before, id, keyFields)} :: id in before ==>
      id in after && RowKey(after, id, keyFields) == RowKey(before, id, keyFields)
  }

  /** Every entry of the batch carries its own key in the key columns. */
  predicate SelfKeyed(d: Dict<Fields>, keyFields: seq<string>)
  {
    forall k :: k in d.entries ==> KeyedBy(d.entries[k], keyFields, k)
  }

  /** A row that is kept keeps its key, so a key that had a row still has one. */
  lemma HasRowKept(before: Table, after: Table, keyFields: seq<string>, k: Key)
    requires KeysKept(before, after, keyFields) && HasRow(before, keyFields, k)
    ensures HasRow(after, keyFields, k)
  {
    var id :| id in before && RowKey(before, id, keyFields) == k;
    assert id in after && RowKey(after, id, keyFields) == k;
  }

  lemma KeysKeptTrans(a: Table, b: Table, c: Table, keyFields: seq<string>)
    requires KeysKept(a, b, keyFields) && KeysKept(b, c, keyFields)
    ensures KeysKept(a, c, keyFields)
  {
    forall id | id in a
      ensures id in c && RowKey(c, id, keyFields) == RowKey(a, id, keyFields)
    {
      assert RowKey(b, id, keyFields) == RowKey(a, id, keyFields);
    }
  }

  /** The key columns of an Event: `['type', 'iteration_id', 'occured_on', 'task_id']`. */
  const EventKeyFields: seq<string> := ["type", "iteration_id", "occured_on", "task_id"]

  /**
   * No stored row changes its key: Users keep their `email`, Iterations
   * and Tasks their `ext_id`, Events their key columns.
   */
  ghost predicate TablesKept(before: map<Model, Table>, after: map<Model, Table>)
  {
    && KeysKept(TableOf(before, Users), TableOf(after, Users), KeyColumns(Users))
    && KeysKept(TableOf(before, Iterations), TableOf(after, Iterations), KeyColumns(Iterations))
    && KeysKept(TableOf(before, Tasks), TableOf(after, Tasks), KeyColumns(Tasks))
    && KeysKept(TableOf(before, Events), TableOf(after, Events), KeyColumns(Events))
  }

  /** The columns a synced model is matched on. */
  function KeyColumns(m: Model): seq<string>
  {
    match m
    case Users => ["email"]
    case Iterations => ["ext_id"]
    case Tasks => ["ext_id"]
    case Events => EventKeyFields
  }

  lemma TablesKeptTrans(a: map<Model, Table>, b: map<Model, Table>, c: map<Model, Table>)
    requires TablesKept(a, b) && TablesKept(b, c)
    ensures TablesKept(a, c)
  {
    KeysKeptTrans(TableOf(a, Users), TableOf(b, Users), TableOf(c, Users), KeyColumns(Users));
    KeysKeptTrans(TableOf(a, Iterations), TableOf(b, Iterations), TableOf(c, Iterations), KeyColumns(Iterations));
    KeysKeptTrans(TableOf(a, Tasks), TableOf(b, Tasks), TableOf(c, Tasks), KeyColumns(Tasks));
    KeysKeptTrans(TableOf(a, Events), TableOf(b, Events), TableOf(c, Events), KeyColumns(Events));
  }

  /** Changing nothing keeps every key. */
  lemma TablesKeptRefl(tables: map<Model, Table>)
    ensures TablesKept(tables, tables)
  {
  }

  /** Changing one table without changing its rows' keys keeps every key. */
  lemma TablesKeptBy(before: map<Model, Table>, db: Database, m: Model)
    requires forall m' :: m' != m ==> db.Rows(m') == TableOf(before, m')
    requires KeysKept(TableOf(before, m), db.Rows(m), KeyColumns(m))
    ensures TablesKept(before, db.tables)
  {
  }

  /**
   * An upsert of a batch whose entries carry their own keys changes no
   * stored row's key: a row is overwritten only by the entry of its own key.
   */
  lemma UpsertKeepsKeys(t: Table, next: nat, d: Dict<Fields>, keyFields: seq<string>,
                        construct: Construct)
    requires d.WellFormed() && SelfKeyed(d, keyFields) && forall id :: id in t ==> id < next
    ensures KeysKept(t, Upsert(t, next, d, keyFields, construct).table, keyFields)
  {
    var u := Upsert(t, next, d, keyFields, construct);
    UpsertKeeps(t, next, d, keyFields, construct);
    forall id | id in t
      ensures id in u.table && RowKey(u.table, id, keyFields) == RowKey(t, id, keyFields)
    {
      var k := KeyOf(t[id], keyFields);
      if k in d.entries {
        assert KeyedBy(u.table[id], keyFields, k);
        KeyOfKeyed(u.table[id], keyFields, k);
      }
    }
  }

  /** When every key's row carries its self-keyed entry, every key has a row. */
  lemma CarriedKeys(d: Dict<Fields>, rows: map<Key, nat>, work: Table, keyFields: seq<string>,
                       field: string, stamps: seq<Option<int>>)
    requires d.WellFormed() && Carried(d, rows, work, field, stamps) && SelfKeyed(d, keyFields)
    ensures forall k :: k in d.entries ==> HasRow(work, keyFields, k)
  {
    forall k | k in d.entries
      ensures HasRow(work, keyFields, k)
    {
      assert KeyedBy(work[rows[k]], keyFields, k);
      KeyOfKeyed(work[rows[k]], keyFields, k);
      assert RowKey(work, rows[k], keyFields) == k;
    }
  }

  /** The creation loop creates nothing when every key is matched. */
  lemma {:induction false} CreateNothing(base: Table, next: nat, order: seq<Key>, n: nat,
                                         batch: map<Key, Fields>, matched: set<Key>,
                                         construct: Construct)
    requires n <= |order| && forall i :: 0 <= i < |order| ==> order[i] in batch && order[i] in matched
    ensures Create(base, next, order, n, batch, matched, construct) == Upserted(base, next, map[])
    decreases n
  {
    if n > 0 {
      CreateNothing(base, next, order, n - 1, batch, matched, construct);
    }
  }

  /** After the upsert, patching a row again with the batch changes nothing. */
  lemma UpsertSettled(t: Table, next: nat, d: Dict<Fields>, keyFields: seq<string>,
                      construct: Construct, id: nat)
    requires d.WellFormed() && forall i :: i in t ==> i < next
    requires forall k :: k in d.entries ==> KeyedBy(d.entries[k], keyFields, k)
    requires forall k :: k in d.entries ==> Extends(construct(d.entries[k]), d.entries[k])
    requires id in Upsert(t, next, d, keyFields, construct).table
    ensures var u := Upsert(t, next, d, keyFields, construct);
            PatchRow(u.table[id], d.entries, keyFields) == u.table[id]
  {
    var u := Upsert(t, next, d, keyFields, construct);
    UpsertKeeps(t, next, d, keyFields, construct);
    var k := KeyOf(u.table[id], keyFields);
    if k in d.entries {
      if id in t {
        var k0 := KeyOf(t[id], keyFields);
        if k0 in d.entries {
          assert u.table[id] == t[id] + d.entries[k0];
          assert KeyedBy(u.table[id], keyFields, k0);
          KeyOfKeyed(u.table[id], keyFields, k0);
          ExtendsAbsorbs(u.table[id], d.entries[k0]);
        }
      } else {
        UpsertOnto(t, next, d, keyFields, construct);
        UpsertBuilds(t, next, d, keyFields, construct);
        var k1 :| k1 in u.created && u.created[k1] == id;
        assert u.table[id] == construct(d.entries[k1]);
        assert KeyedBy(u.table[id], keyFields, k1);
        KeyOfKeyed(u.table[id], keyFields, k1);
        ExtendsAbsorbs(u.table[id], d.entries[k1]);
      }
    }
  }

  /** After the upsert, every key of the batch matches a row. */
  lemma UpsertMatchesAll(t: Table, next: nat, d: Dict<Fields>, keyFields: seq<string>,
                         construct: Construct)
    requires d.WellFormed() && forall id :: id in t ==> id < next
    requires forall k :: k in d.entries ==> KeyedBy(d.entries[k], keyFields, k)
    requires forall k :: k in d.entries ==> Extends(construct(d.entries[k]), d.entries[k])
    ensures var u := Upsert(t, next, d, keyFields, construct);
            forall i :: 0 <= i < |d.order| ==> d.order[i] in d.entries && d.order[i] in Matched(u.table, d.entries, keyFields)
  {
    var u := Upsert(t, next, d, keyFields, construct);
    forall i | 0 <= i < |d.order|
      ensures d.order[i] in d.entries && d.order[i] in Matched(u.table, d.entries, keyFields)
    {
      assert d.order[i] in d.order;
      UpsertCovers(t, next, d, keyFields, construct, d.order[i]);
    }
  }

  /** After the upsert, patching the table again with the batch changes nothing. */
  lemma UpsertPatchedSettled(t: Table, next: nat, d: Dict<Fields>, keyFields: seq<string>,
                             construct: Construct)
    requires d.WellFormed() && forall id :: id in t ==> id < next
    requires forall k :: k in d.entries ==> KeyedBy(d.entries[k], keyFields, k)
    requires forall k :: k in d.entries ==> Extends(construct(d.entries[k]), d.entries[k])
    ensures var u := Upsert(t, next, d, keyFields, construct);
            Patched(u.table, d.entries, keyFields) == u.table
  {
    var u := Upsert(t, next, d, keyFields, construct);
    forall id | id in u.table
      ensures PatchRow(u.table[id], d.entries, keyFields) == u.table[id]
    {
      UpsertSettled(t, next, d, keyFields, construct, id);
    }
  }

  /**
   * Re-applying the same batch creates no rows and changes nothing: the
   * upsert is idempotent for a batch whose entries carry their own keys and
   * a constructor that keeps the fields it is given.
   */
  lemma UpsertTwice(t: Table, next: nat, d: Dict<Fields>, keyFields: seq<string>,
                    construct: Construct)
    requires d.WellFormed() && forall id :: id in t ==> id < next
    requires forall k :: k in d.entries ==> KeyedBy(d.entries[k], keyFields, k)
    requires forall k :: k in d.entries ==> Extends(construct(d.entries[k]), d.entries[k])
    ensures var u := Upsert(t, next, d, keyFields, construct);
            var v := Upsert(u.table, u.next, d, keyFields, construct);
            v.created == map[] && v.next == u.next && v.table == u.table
  {
    var u := Upsert(t, next, d, keyFields, construct);
    UpsertMatchesAll(t, next, d, keyFields, construct);
    UpsertPatchedSettled(t, next, d, keyFields, construct);
    CreateNothing(u.table, u.next, d.order, |d.order|, d.entries, Matched(u.table, d.entries, keyFields), construct);
  }

  // ---------------------------------------------------------------------
  // The high-water mark

  /** One step of the mark: the first stamp seen, then the larger of mark and stamp. */
  function StepMark(mark: Option<int>, stamp: Option<int>): Option<int>
  {
    if mark.None? then stamp
    else if stamp.Some? then Some(Max(mark.value, stamp.value))
    else mark
  }

  /** The mark after visiting the stamps in order. */
  function HighWater(mark: Option<int>, stamps: seq<Option<int>>): Option<int>
    decreases |stamps|
  {
    if stamps == [] then mark
    else StepMark(HighWater(mark, stamps[..|stamps| - 1]), stamps[|stamps| - 1])
  }

  /**
   * The returned mark is the maximum of the present values among the input
   * mark and the stamps, and absent when they are all absent; in
   * particular it is never below a present input mark.
   */
  lemma {:induction false} HighWaterIsMax(mark: Option<int>, stamps: seq<Option<int>>)
    ensures var h := HighWater(mark, stamps);
            && (h.None? <==> mark.None? && forall i :: 0 <= i < |stamps| ==> stamps[i].None?)
            && (h.Some? ==>
                  && (mark.Some? ==> mark.value <= h.value)
                  && (forall i :: 0 <= i < |stamps| && stamps[i].Some? ==> stamps[i].value <= h.value)
                  && (h == mark || exists i :: 0 <= i < |stamps| && stamps[i] == h))
    decreases |stamps|
  {
    if stamps != [] {
      var init := stamps[..|stamps| - 1];
      HighWaterIsMax(mark, init);
      var h0 := HighWater(mark, init);
      assert forall i :: 0 <= i < |init| ==> init[i] == stamps[i];
      if h0.Some? && h0 != mark {
        var i :| 0 <= i < |init| && init[i] == h0;
        assert stamps[i] == h0;
      }
    }
  }

  /** Raising the mark over two runs of stamps is raising it over both at once. */
  lemma {:induction false} HighWaterConcat(mark: Option<int>, a: seq<Option<int>>, b: seq<Option<int>>)
    ensures HighWater(mark, a + b) == HighWater(HighWater(mark, a), b)
    decreases |b|
  {
    if b == [] {
      assert a + b == a;
    } else {
      HighWaterConcat(mark, a, b[..|b| - 1]);
      assert (a + b)[..|a + b| - 1] == a + b[..|b| - 1];
    }
  }

  /** The `updated_on`-like column of a row as a date, absent unless it holds one. */
  function Stamp(row: Fields, field: string): Option<int>
  {
    match Column(row, field)
    case Num(n) => Some(n)
    case _ => None
  }

  /** The stamps of the rows the batch keys ended up with, in batch order. */
  function Stamps(order: seq<Key>, rows: map<Key, nat>, t: Table, field: string): (s: seq<Option<int>>)
    requires forall i :: 0 <= i < |order| ==> order[i] in rows && rows[order[i]] in t
    ensures |s| == |order|
    ensures forall i :: 0 <= i < |order| ==> s[i] == Stamp(t[rows[order[i]]], field)
  {
    seq(|order|, i requires 0 <= i < |order| => Stamp(t[rows[order[i]]], field))
  }

  // ---------------------------------------------------------------------
  // _batch_sync

  /** The stored table with the rows among `ids` patched. */
  function PatchedAmong(t: Table, ids: set<nat>, batch: map<Key, Fields>,
                        keyFields: seq<string>): Table
  {
    map id | id in t :: if id in ids then PatchRow(t[id], batch, keyFields) else t[id]
  }

  /** Patching one more row. */
  lemma PatchedAmongStep(t: Table, ids: set<nat>, id: nat, batch: map<Key, Fields>,
                         keyFields: seq<string>)
    requires id in t && id !in ids
    ensures PatchedAmong(t, ids + {id}, batch, keyFields)
         == PatchedAmong(t, ids, batch, keyFields)[id := PatchRow(t[id], batch, keyFields)]
  {
  }

  /** Nothing patched, and everything patched. */
  lemma PatchedAmongAll(t: Table, batch: map<Key, Fields>, keyFields: seq<string>)
    ensures PatchedAmong(t, {}, batch, keyFields) == t
    ensures PatchedAmong(t, t.Keys, batch, keyFields) == Patched(t, batch, keyFields)
  {
  }

  /** Every key in `rows` names a stored row that has that key. */
  predicate RowsKeyed(t: Table, rows: map<Key, nat>, keyFields: seq<string>)
  {
    forall k :: k in rows ==> rows[k] in t && KeyOf(t[rows[k]], keyFields) == k
  }

  /** The state of the overwrite loop once the rows `done` have been visited. */
  ghost predicate MatchedSoFar(t: Table, batch: map<Key, Fields>, keyFields: seq<string>,
                         done: set<nat>, work: Table, rows: map<Key, nat>)
  {
    && work == PatchedAmong(t, done, batch, keyFields)
    && rows.Keys == MatchedAmong(t, done, batch, keyFields)
    && RowsKeyed(t, rows, keyFields)
  }

  /** Visiting a row whose key is in the batch: it is patched and its key recorded. */
  lemma MatchHit(t: Table, batch: map<Key, Fields>, keyFields: seq<string>, done: set<nat>,
                 id: nat, work: Table, rows: map<Key, nat>)
    requires id in t && id !in done && KeyOf(t[id], keyFields) in batch
    requires MatchedSoFar(t, batch, keyFields, done, work, rows)
    ensures var key := KeyOf(t[id], keyFields);
            MatchedSoFar(t, batch, keyFields, done + {id}, work[id := t[id] + batch[key]], rows[key := id])
  {
    PatchedAmongStep(t, done, id, batch, keyFields);
    MatchedAmongStep(t, done, id, batch, keyFields);
  }

  /** Visiting a row whose key is not in the batch changes nothing. */
  lemma MatchMiss(t: Table, batch: map<Key, Fields>, keyFields: seq<string>, done: set<nat>,
                  id: nat, work: Table, rows: map<Key, nat>)
    requires id in t && id !in done && KeyOf(t[id], keyFields) !in batch
    requires MatchedSoFar(t, batch, keyFields, done, work, rows)
    ensures MatchedSoFar(t, batch, keyFields, done + {id}, work, rows)
  {
    PatchedAmongStep(t, done, id, batch, keyFields);
    MatchedAmongStep(t, done, id, batch, keyFields);
    assert work[id := PatchRow(t[id], batch, keyFields)] == work;
  }

  /** Moving one element from the pending set to the done set keeps their union and disjointness. */
  lemma MoveOne<T>(pending: set<T>, done: set<T>, x: T)
    requires x in pending && pending !! done
    ensures (pending - {x}) + (done + {x}) == pending + done
    ensures (pending - {x}) !! (done + {x})
  {
  }

  /** Visiting one more row adds its key when the batch has it. */
  lemma MatchedAmongStep(t: Table, ids: set<nat>, id: nat, batch: map<Key, Fields>,
                         keyFields: seq<string>)
    requires id in t
    ensures var key := KeyOf(t[id], keyFields);
            MatchedAmong(t, ids + {id}, batch, keyFields)
              == MatchedAmong(t, ids, batch, keyFields) + (if key in batch then {key} else {})
  {
  }

  /**
   * The overwrite loop of `_batch_sync`: every stored row whose key is in
   * the batch, patched; `rows` maps each such key to its row.
   */
  method MatchRows(t: Table, batch: map<Key, Fields>, keyFields: seq<string>)
    returns (work: Table, rows: map<Key, nat>)
    ensures work == Patched(t, batch, keyFields)
    ensures rows.Keys == Matched(t, batch, keyFields)
    ensures RowsKeyed(t, rows, keyFields)
  {
    work, rows := t, map[];
    var pending := t.Keys;
    ghost var done: set<nat> := {};
    PatchedAmongAll(t, batch, keyFields);
    while pending != {}
      invariant pending + done == t.Keys && pending !! done
      invariant MatchedSoFar(t, batch, keyFields, done, work, rows)
      decreases |pending|
    {
      var id :| id in pending;
      var key := KeyOf(t[id], keyFields);
      if key in batch {
        MatchHit(t, batch, keyFields, done, id, work, rows);
        work := work[id := t[id] + batch[key]];
        rows := rows[key := id];
      } else {
        MatchMiss(t, batch, keyFields, done, id, work, rows);
      }
      MoveOne(pending, done, id);
      pending := pending - {id};
      done := done + {id};
    }
    assert done == t.Keys;
  }

  /** What the save loop needs of its arguments. */
  ghost predicate SaveArgs(base: Table, next0: nat, order: seq<Key>, batch: map<Key, Fields>,
                     matchedRows: map<Key, nat>)
  {
    && (forall i :: 0 <= i < |order| ==> order[i] in batch)
    && (forall i, j :: 0 <= i < j < |order| ==> order[i] != order[j])
    && (forall id :: id in base ==> id < next0)
    && (forall k :: k in matchedRows ==> matchedRows[k] in base)
  }

  /** The rows of the save loop after the first `i` keys of the batch. */
  ghost predicate CreatedSoFar(base: Table, next0: nat, order: seq<Key>, batch: map<Key, Fields>,
                               matchedRows: map<Key, nat>, construct: Construct, i: nat,
                               work: Table, next: nat, rows: map<Key, nat>, created: map<Key, nat>)
    requires SaveArgs(base, next0, order, batch, matchedRows)
  {
    && i <= |order|
    && Create(base, next0, order, i, batch, matchedRows.Keys, construct)
         == Upserted(work, next, created)
    && rows == matchedRows + created
  }

  /** What the save loop's state implies about its ids and keys. */
  lemma SavedSoFar(base: Table, next0: nat, order: seq<Key>, batch: map<Key, Fields>,
                   matchedRows: map<Key, nat>, construct: Construct, i: nat,
                   work: Table, next: nat, rows: map<Key, nat>, created: map<Key, nat>)
    requires SaveArgs(base, next0, order, batch, matchedRows)
    requires CreatedSoFar(base, next0, order, batch, matchedRows, construct, i, work, next, rows, created)
    ensures forall id :: id in work ==> id < next
    ensures forall k :: k in matchedRows ==> matchedRows[k] in work && k !in created
    ensures forall k :: k in created ==> k in order[..i] && created[k] in work
  {
    CreateIds(base, next0, order, i, batch, matchedRows.Keys, construct);
    CreateKeySet(base, next0, order, i, batch, matchedRows.Keys, construct);
    CreateBuilt(base, next0, order, i, batch, matchedRows.Keys, construct);
  }

  /** Adding a created key that was not matched. */
  lemma AddCreated(matchedRows: map<Key, nat>, created: map<Key, nat>, key: Key, id: nat)
    requires key !in matchedRows
    ensures (matchedRows + created)[key := id] == matchedRows + created[key := id]
  {
  }

  /** The mark of the save loop after the first `i` keys of the batch. */
  ghost predicate StampedSoFar(order: seq<Key>, mark: Option<int>, stampField: string, i: nat,
                               work: Table, rows: map<Key, nat>, stamps: seq<Option<int>>,
                               hw: Option<int>)
  {
    && i <= |order|
    && (forall j :: 0 <= j < i ==> order[j] in rows && rows[order[j]] in work)
    && |stamps| == i
    && (forall j :: 0 <= j < i ==> stamps[j] == Stamp(work[rows[order[j]]], stampField))
    && hw == HighWater(mark, stamps)
  }

  /** One more key: the mark is raised by the stamp of its row, earlier keys' rows unchanged. */
  lemma StampStep(order: seq<Key>, mark: Option<int>, stampField: string, i: nat,
                  work: Table, rows: map<Key, nat>, stamps: seq<Option<int>>, hw: Option<int>,
                  work': Table, rows': map<Key, nat>)
    requires i < |order|
    requires StampedSoFar(order, mark, stampField, i, work, rows, stamps, hw)
    requires forall j :: 0 <= j < i ==>
               order[j] in rows' && rows'[order[j]] == rows[order[j]] &&
               rows[order[j]] in work' && work'[rows[order[j]]] == work[rows[order[j]]]
    requires order[i] in rows' && rows'[order[i]] in work'
    ensures var stamp := Stamp(work'[rows'[order[i]]], stampField);
            StampedSoFar(order, mark, stampField, i + 1, work', rows', stamps + [stamp],
                         StepMark(hw, stamp))
  {
    var stamps' := stamps + [Stamp(work'[rows'[order[i]]], stampField)];
    assert stamps'[..i] == stamps;
  }

  /** One more key whose row was already in the work table. */
  lemma StampMatched(order: seq<Key>, mark: Option<int>, stampField: string, i: nat,
                     work: Table, rows: map<Key, nat>, stamps: seq<Option<int>>, hw: Option<int>)
    requires i < |order| && order[i] in rows && rows[order[i]] in work
    requires StampedSoFar(order, mark, stampField, i, work, rows, stamps, hw)
    ensures var stamp := Stamp(work[rows[order[i]]], stampField);
            StampedSoFar(order, mark, stampField, i + 1, work, rows, stamps + [stamp],
                         StepMark(hw, stamp))
  {
    StampStep(order, mark, stampField, i, work, rows, stamps, hw, work, rows);
  }

  /** One more key, given a new row under an id not in use. */
  lemma StampCreated(order: seq<Key>, mark: Option<int>, stampField: string, i: nat,
                     work: Table, rows: map<Key, nat>, stamps: seq<Option<int>>, hw: Option<int>,
                     id: nat, obj: Fields)
    requires i < |order| && order[i] !in rows && id !in work
    requires StampedSoFar(order, mark, stampField, i, work, rows, stamps, hw)
    ensures var stamp := Stamp(obj, stampField);
            StampedSoFar(order, mark, stampField, i + 1, work[id := obj], rows[order[i] := id],
                         stamps + [stamp], StepMark(hw, stamp))
  {
    StampStep(order, mark, stampField, i, work, rows, stamps, hw, work[id := obj], rows[order[i] := id]);
  }

  /** The finished save loop's mark. */
  lemma StampedAll(order: seq<Key>, mark: Option<int>, stampField: string,
                   work: Table, rows: map<Key, nat>, stamps: seq<Option<int>>, hw: Option<int>)
    requires StampedSoFar(order, mark, stampField, |order|, work, rows, stamps, hw)
    ensures forall i :: 0 <= i < |order| ==> order[i] in rows && rows[order[i]] in work
    ensures hw == HighWater(mark, Stamps(order, rows, work, stampField))
  {
    assert stamps == Stamps(order, rows, work, stampField);
  }

  /** A key that already had a row: the loop creates nothing. */
  lemma SaveMatched(base: Table, next0: nat, order: seq<Key>, batch: map<Key, Fields>,
                    matchedRows: map<Key, nat>, construct: Construct, i: nat,
                    work: Table, next: nat, rows: map<Key, nat>, created: map<Key, nat>)
    requires SaveArgs(base, next0, order, batch, matchedRows)
    requires i < |order| && order[i] in matchedRows
    requires CreatedSoFar(base, next0, order, batch, matchedRows, construct, i, work, next, rows, created)
    ensures order[i] in rows && rows[order[i]] == matchedRows[order[i]] && rows[order[i]] in work
    ensures CreatedSoFar(base, next0, order, batch, matchedRows, construct, i + 1, work, next, rows, created)
  {
    SavedSoFar(base, next0, order, batch, matchedRows, construct, i, work, next, rows, created);
  }

  /** A new key: the loop adds its row under the next id. */
  lemma SaveCreated(base: Table, next0: nat, order: seq<Key>, batch: map<Key, Fields>,
                    matchedRows: map<Key, nat>, construct: Construct, i: nat,
                    work: Table, next: nat, rows: map<Key, nat>, created: map<Key, nat>)
    requires SaveArgs(base, next0, order, batch, matchedRows)
    requires i < |order| && order[i] !in matchedRows
    requires CreatedSoFar(base, next0, order, batch, matchedRows, construct, i, work, next, rows, created)
    ensures next !in work && order[i] !in rows
    ensures forall k :: k in rows ==> rows[k] in work
    ensures var key := order[i];
            CreatedSoFar(base, next0, order, batch, matchedRows, construct, i + 1,
                         work[next := construct(batch[key])], next + 1, rows[key := next],
                         created[key := next])
  {
    var key := order[i];
    SavedSoFar(base, next0, order, batch, matchedRows, construct, i, work, next, rows, created);
    NotEarlier(order, i);
    assert key !in created;
    AddCreated(matchedRows, created, key, next);
  }

  /**
   * The save loop of `_batch_sync`, over the batch in order: a key without
   * a stored row gets a new row `construct(entry)` with the next free id,
   * and the mark is raised by the stamp of each key's row.
   */
  method SaveRows(base: Table, next0: nat, order: seq<Key>, batch: map<Key, Fields>,
                  matchedRows: map<Key, nat>, construct: Construct,
                  mark: Option<int>, stampField: string)
    returns (work: Table, next: nat, rows: map<Key, nat>, hw: Option<int>)
    requires forall i :: 0 <= i < |order| ==> order[i] in batch
    requires forall i, j :: 0 <= i < j < |order| ==> order[i] != order[j]
    requires forall id :: id in base ==> id < next0
    requires forall k :: k in matchedRows ==> matchedRows[k] in base
    ensures var u := Create(base, next0, order, |order|, batch, matchedRows.Keys, construct);
            && work == u.table && next == u.next && rows == matchedRows + u.created
    ensures forall i :: 0 <= i < |order| ==> order[i] in rows && rows[order[i]] in work
    ensures hw == HighWater(mark, Stamps(order, rows, work, stampField))
  {
    work, next, rows, hw := base, next0, matchedRows, mark;
    ghost var created: map<Key, nat> := map[];
    ghost var stamps: seq<Option<int>> := [];
    assert SaveArgs(base, next0, order, batch, matchedRows);
    assert matchedRows + map[] == matchedRows;
    var i := 0;
    while i < |order|
      invariant CreatedSoFar(base, next0, order, batch, matchedRows, construct, i,
                             work, next, rows, created)
      invariant StampedSoFar(order, mark, stampField, i, work, rows, stamps, hw)
    {
      var key := order[i];
      var obj: Fields;
      if key in matchedRows {
        SaveMatched(base, next0, order, batch, matchedRows, construct, i, work, next, rows, created);
        StampMatched(order, mark, stampField, i, work, rows, stamps, hw);
        obj := work[matchedRows[key]];
      } else {
        SaveCreated(base, next0, order, batch, matchedRows, construct, i, work, next, rows, created);
        obj := construct(batch[key]);
        StampCreated(order, mark, stampField, i, work, rows, stamps, hw, next, obj);
        work := work[next := obj];
        rows := rows[key := next];
        created := created[key := next];
        next := next + 1;
      }
      var stamp := Stamp(obj, stampField);
      hw := StepMark(hw, stamp);
      stamps := stamps + [stamp];
      i := i + 1;
    }
    StampedAll(order, mark, stampField, work, rows, stamps, hw);
  }

  /**
   * The outcome of the two loops of `_batch_sync` on the stored table `t`:
   * the upserted table and next id; `rows`, the batch as the call leaves
   * it, maps every batch key to its row, the created one or else the stored
   * row that has that key; and `hw` is the mark raised by the stamps of
   * those rows, in batch order.
   */
  ghost predicate Reconciled(t: Table, next0: nat, d: Dict<Fields>, keyFields: seq<string>,
                             construct: Construct, mark: Option<int>, stampField: string,
                             work: Table, next: nat, rows: map<Key, nat>, hw: Option<int>)
    requires d.WellFormed()
  {
    var u := Upsert(t, next0, d, keyFields, construct);
    && work == u.table && next == u.next
    && rows.Keys == d.entries.Keys
    && (forall k :: k in u.created ==> k in rows && rows[k] == u.created[k])
    && (forall k :: k in rows && k !in u.created ==>
          rows[k] in t && KeyOf(t[rows[k]], keyFields) == k)
    && (forall k :: k in rows ==> rows[k] in work)
    && hw == HighWater(mark, Stamps(d.order, rows, work, stampField))
  }

  /** The two loops of `_batch_sync` on the stored table `t`. */
  method Reconcile(t: Table, next0: nat, d: Dict<Fields>, keyFields: seq<string>,
                   construct: Construct, mark: Option<int>, stampField: string)
    returns (work: Table, next: nat, rows: map<Key, nat>, hw: Option<int>)
    requires d.WellFormed() && forall id :: id in t ==> id < next0
    ensures Reconciled(t, next0, d, keyFields, construct, mark, stampField, work, next, rows, hw)
  {
    var patched, matchedRows := MatchRows(t, d.entries, keyFields);
    assert forall j :: 0 <= j < |d.order| ==> d.order[j] in d.order;
    work, next, rows, hw := SaveRows(patched, next0, d.order, d.entries, matchedRows, construct,
                                     mark, stampField);
    ReconciledKeys(t, next0, d, keyFields, construct, matchedRows, rows);
  }

  /** The batch keys after the save loop: exactly the batch's, each with a row in the table. */
  lemma ReconciledKeys(t: Table, next0: nat, d: Dict<Fields>, keyFields: seq<string>,
                       construct: Construct, matchedRows: map<Key, nat>, rows: map<Key, nat>)
    requires d.WellFormed()
    requires matchedRows.Keys == Matched(t, d.entries, keyFields)
    requires rows == matchedRows + Upsert(t, next0, d, keyFields, construct).created
    ensures rows.Keys == d.entries.Keys
  {
    assert forall j :: 0 <= j < |d.order| ==> d.order[j] in d.order;
    assert d.order[..|d.order|] == d.order;
    CreateKeySet(Patched(t, d.entries, keyFields), next0, d.order, |d.order|, d.entries,
                 Matched(t, d.entries, keyFields), construct);
  }

  /**
   * The two loops and the commit of `_batch_sync` for a nonempty batch
   * with key columns: the rows with a batch key are overwritten, one row is
   * created per remaining key, and the commit either installs the upserted
   * table or, when a uniqueness constraint would break, fails with an
   * integrity error and changes nothing.
   */
  method SaveBatch(db: Database, mark: Option<int>, d: Dict<Fields>, m: Model,
                   keyFields: seq<string>, stampField: string, construct: Construct)
    returns (r: Result<Option<int>, SyncError>, rows: map<Key, nat>, ghost stamps: seq<Option<int>>)
    requires db.Valid() && d.WellFormed()
    modifies db
    ensures db.Valid() && db.syncs == old(db.syncs) && old(db.nextId) <= db.nextId
    ensures r.Success? ==> r.value == HighWater(mark, stamps) && |stamps| == d.Size()
    ensures r.Success? && KeepsFields(construct) ==> Carried(d, rows, db.Rows(m), stampField, stamps)
    ensures r.Failure? ==> (forall m' :: db.Rows(m') == old(db.Rows(m'))) && db.nextId == old(db.nextId)
    ensures r.Failure? <==> !Unique(m, Upsert(old(db.Rows(m)), old(db.nextId), d, keyFields, construct).table)
    ensures r.Success? ==>
              && Reconciled(old(db.Rows(m)), old(db.nextId), d, keyFields, construct, mark,
                            stampField, db.Rows(m), db.nextId, rows, r.value)
              && (forall m' :: m' != m ==> db.Rows(m') == old(db.Rows(m')))
  {
    var t, next0 := db.Rows(m), db.nextId;
    var work, next, hw;
    work, next, rows, hw := Reconcile(t, next0, d, keyFields, construct, mark, stampField);
    ReconciledCarried(t, next0, d, keyFields, construct, mark, stampField, work, next, rows, hw);
    stamps := [];
    if !Unique(m, work) {
      return Failure(IntegrityError(m)), rows, stamps;
    }
    UpsertIds(t, next0, d, keyFields, construct);
    stamps := Stamps(d.order, rows, work, stampField);
    db.Commit(m, work, next);
    r := Success(hw);
  }

  /**
   * `_batch_sync(mark, batch, model, ext_id, updated_on)`: an empty batch
   * returns the mark; no key column raises ValueError; otherwise the rows
   * with a batch key are overwritten, one row is created per remaining
   * key, the mark is raised to the latest stamp of the batch's rows, and
   * the commit fails with an integrity error instead when a uniqueness
   * constraint would break. `rows` is the batch after the call: each key's
   * row id.
   */
  method BatchSync(db: Database, mark: Option<int>, d: Dict<Fields>, m: Model,
                   keyFields: seq<string>, stampField: string, construct: Construct)
    returns (r: Result<Option<int>, SyncError>, rows: map<Key, nat>, ghost stamps: seq<Option<int>>)
    requires db.Valid() && d.WellFormed()
    modifies db
    ensures db.Valid() && db.syncs == old(db.syncs) && old(db.nextId) <= db.nextId
    ensures r.Success? ==> r.value == HighWater(mark, stamps) && |stamps| == d.Size()
    ensures r.Success? ==> rows.Keys == d.entries.Keys && forall k :: k in rows ==> rows[k] in db.Rows(m)
    ensures r.Success? && KeepsFields(construct) ==> Carried(d, rows, db.Rows(m), stampField, stamps)
    ensures |d.order| == 0 ==> r == Success(mark)
    ensures |d.order| > 0 && keyFields == [] ==> r == Failure(NoKeyFields)
    ensures r.Failure? || |d.order| == 0 ==>
              (forall m' :: db.Rows(m') == old(db.Rows(m'))) && db.nextId == old(db.nextId)
    ensures |d.order| > 0 && keyFields != [] ==>
              && (r.Failure? <==>
                    !Unique(m, Upsert(old(db.Rows(m)), old(db.nextId), d, keyFields, construct).table))
              && (r.Success? ==>
                    && Reconciled(old(db.Rows(m)), old(db.nextId), d, keyFields, construct, mark,
                                  stampField, db.Rows(m), db.nextId, rows, r.value)
                    && (forall m' :: m' != m ==> db.Rows(m') == old(db.Rows(m'))))
    ensures keyFields == KeyColumns(m) && SelfKeyed(d, keyFields) ==> TablesKept(old(db.tables), db.tables)
    ensures r.Success? && KeepsFields(construct) && SelfKeyed(d, keyFields) ==>
              forall k :: k in d.entries ==> HasRow(db.Rows(m), keyFields, k)
  {
    ghost var tables0, t0, n0 := db.tables, db.Rows(m), db.nextId;
    rows, stamps := map[], [];
    if |d.order| == 0 {
      assert d.entries.Keys == {};
      return Success(mark), rows, stamps;
    }
    if |keyFields| == 0 {
      return Failure(NoKeyFields), rows, stamps;
    }
    r, rows, stamps := SaveBatch(db, mark, d, m, keyFields, stampField, construct);
    if SelfKeyed(d, keyFields) && r.Success? {
      UpsertKeepsKeys(t0, n0, d, keyFields, construct);
      if KeepsFields(construct) {
        CarriedKeys(d, rows, db.Rows(m), keyFields, stampField, stamps);
      }
    }
    if keyFields == KeyColumns(m) && SelfKeyed(d, keyFields) {
      TablesKeptBy(tables0, db, m);
    }
  }

  /** A constructor that keeps every field it is given (it may add others). */
  ghost predicate KeepsFields(construct: Construct)
  {
    forall f :: Extends(construct(f), f)
  }

  /** The stamps of the batch entries themselves, in batch order. */
  function EntryStamps(d: Dict<Fields>, field: string): (s: seq<Option<int>>)
    requires d.WellFormed()
    ensures |s| == |d.order|
  {
    assert forall i :: 0 <= i < |d.order| ==> d.order[i] in d.order;
    seq(|d.order|, i requires 0 <= i < |d.order| => Stamp(d.entries[d.order[i]], field))
  }

  /**
   * With a constructor that keeps its fields, every batch key's row, the
   * created one or the overwritten stored one, carries the key's entry.
   */
  lemma ReconciledRows(t: Table, next0: nat, d: Dict<Fields>, keyFields: seq<string>,
                       construct: Construct, mark: Option<int>, stampField: string,
                       work: Table, next: nat, rows: map<Key, nat>, hw: Option<int>)
    requires d.WellFormed() && forall id :: id in t ==> id < next0
    requires Reconciled(t, next0, d, keyFields, construct, mark, stampField, work, next, rows, hw)
    requires KeepsFields(construct)
    ensures rows.Keys == d.entries.Keys
    ensures forall k :: k in rows ==> rows[k] in work && Extends(work[rows[k]], d.entries[k])
  {
    var u := Upsert(t, next0, d, keyFields, construct);
    UpsertKeeps(t, next0, d, keyFields, construct);
    UpsertBuilds(t, next0, d, keyFields, construct);
    forall k | k in rows
      ensures Extends(work[rows[k]], d.entries[k])
    {
      if k in u.created {
        assert work[rows[k]] == construct(d.entries[k]);
      } else {
        assert work[rows[k]] == t[rows[k]] + d.entries[k];
      }
    }
  }

  /** Every entry of the batch carries the stamp column. */
  predicate Stamped(d: Dict<Fields>, field: string)
  {
    forall k :: k in d.entries ==> field in d.entries[k]
  }

  /**
   * After a batch: every key has a row in `work` that carries the key's
   * entry, and the stamps read are those of the rows, which are the
   * entries' own stamps when every entry carries one.
   */
  ghost predicate Carried(d: Dict<Fields>, rows: map<Key, nat>, work: Table, field: string,
                          stamps: seq<Option<int>>)
    requires d.WellFormed()
  {
    && rows.Keys == d.entries.Keys
    && (forall k :: k in rows ==> rows[k] in work && Extends(work[rows[k]], d.entries[k]))
    && (Stamped(d, field) ==> stamps == EntryStamps(d, field))
  }

  /** `Carried` after the two loops, for a constructor that keeps its fields. */
  lemma ReconciledCarried(t: Table, next0: nat, d: Dict<Fields>, keyFields: seq<string>,
                          construct: Construct, mark: Option<int>, stampField: string,
                          work: Table, next: nat, rows: map<Key, nat>, hw: Option<int>)
    requires d.WellFormed() && forall id :: id in t ==> id < next0
    requires Reconciled(t, next0, d, keyFields, construct, mark, stampField, work, next, rows, hw)
    ensures forall i :: 0 <= i < |d.order| ==> d.order[i] in rows && rows[d.order[i]] in work
    ensures hw == HighWater(mark, Stamps(d.order, rows, work, stampField))
    ensures work == Upsert(t, next0, d, keyFields, construct).table
    ensures KeepsFields(construct) ==>
              Carried(d, rows, work, stampField, Stamps(d.order, rows, work, stampField))
  {
    assert forall i :: 0 <= i < |d.order| ==> d.order[i] in d.order;
    if KeepsFields(construct) {
      ReconciledRows(t, next0, d, keyFields, construct, mark, stampField, work, next, rows, hw);
      StampsOfEntries(d, rows, work, stampField);
    }
  }

  /** When every key's row carries its entry, the row stamps are the entries' stamps. */
  lemma StampsOfEntries(d: Dict<Fields>, rows: map<Key, nat>, work: Table, field: string)
    requires d.WellFormed() && rows.Keys == d.entries.Keys
    requires forall k :: k in rows ==> rows[k] in work && Extends(work[rows[k]], d.entries[k])
    ensures Carried(d, rows, work, field, Stamps(d.order, rows, work, field))
  {
    assert forall i :: 0 <= i < |d.order| ==> d.order[i] in d.order;
  }

  // ---------------------------------------------------------------------
  // The checkpoint log

  /** `_sync_since(type)`: the latest `last_seen_update` among the syncs of that type. */
  function LastSeen(syncs: seq<SyncRow>, kind: SyncType): (r: Option<int>)
    ensures r.None? <==> forall i :: 0 <= i < |syncs| ==> syncs[i].kind != kind
    ensures r.Some? ==>
              && (forall i :: 0 <= i < |syncs| && syncs[i].kind == kind ==>
                    syncs[i].lastSeenUpdate <= r.value)
              && (exists i :: 0 <= i < |syncs| && syncs[i].kind == kind
                    && syncs[i].lastSeenUpdate == r.value)
    decreases |syncs|
  {
    if syncs == [] then None
    else
      var init := syncs[..|syncs| - 1];
      var last := syncs[|syncs| - 1];
      var before := LastSeen(init, kind);
      assert forall i :: 0 <= i < |init| ==> init[i] == syncs[i];
      if last.kind != kind then before
      else if before.None? then Some(last.lastSeenUpdate)
      else Some(Max(before.value, last.lastSeenUpdate))
  }

  /** Checkpoints of another kind leave the latest mark of a kind as it was. */
  lemma {:induction false} LastSeenOthers(syncs: seq<SyncRow>, extra: seq<SyncRow>, kind: SyncType)
    requires forall i :: 0 <= i < |extra| ==> extra[i].kind != kind
    ensures LastSeen(syncs + extra, kind) == LastSeen(syncs, kind)
    decreases |extra|
  {
    if extra != [] {
      var init, all := extra[..|extra| - 1], syncs + extra;
      assert all[..|all| - 1] == syncs + init;
      assert all[|all| - 1].kind != kind;
      assert LastSeen(all, kind) == LastSeen(syncs + init, kind);
      LastSeenOthers(syncs, init, kind);
    } else {
      assert syncs + extra == syncs;
    }
  }

  /**
   * `_record_sync(type, last_seen)`: nothing when there is no mark;
   * otherwise one Sync row appended and returned.
   */
  method RecordSync(db: Database, kind: SyncType, lastSeen: Option<int>)
    returns (r: Option<SyncRow>)
    requires db.Valid()
    modifies db
    ensures db.Valid()
    ensures lastSeen.None? ==> r.None? && db.syncs == old(db.syncs)
    ensures lastSeen.Some? ==>
              r == Some(SyncRow(lastSeen.value, kind)) && db.syncs == old(db.syncs) + [r.value]
    ensures db.tables == old(db.tables) && db.nextId == old(db.nextId)
  {
    if lastSeen.None? {
      return None;
    }
    var record := SyncRow(lastSeen.value, kind);
    db.syncs := db.syncs + [record];
    r := Some(record);
  }

  /**
   * A recorded checkpoint is what the next `_sync_since` of that type
   * returns, unless an earlier checkpoint of that type is later; the
   * other types are unaffected.
   */
  lemma RecordThenSince(syncs: seq<SyncRow>, kind: SyncType, v: int, other: SyncType)
    ensures var before := LastSeen(syncs, kind);
            LastSeen(syncs + [SyncRow(v, kind)], kind)
              == Some(if before.Some? then Max(before.value, v) else v)
    ensures other != kind ==> LastSeen(syncs + [SyncRow(v, kind)], other) == LastSeen(syncs, other)
  {
    assert (syncs + [SyncRow(v, kind)])[..|syncs|] == syncs;
  }
}
