/**
 * The shared machinery of the sync entry points of stackpm/sync.py and
 * `sync_iterations` itself: records from the project-management connector
 * are gathered into dictionaries keyed by external id, a dictionary is
 * flushed through `_batch_sync` each time it reaches SYNC_BATCH keys and
 * once more for the remainder, the high-water mark is threaded through
 * the flushes, and a checkpoint is recorded at the end. `sync_tasks`,
 * `_batch_sync_tasks` and `sync` build on it in module TaskSync.
 *
 * The connector is a function parameter from `(since, ids)` to the records
 * it returns; the model constructors (`User(**fields)` and so on) are
 * `Construct` parameters.
 */
module SyncFlows {
  import opened Common
  import opened Store
  import opened Sync

  // ---------------------------------------------------------------------
  // Gathering records into a dictionary

  /** The distinct keys of `rs`, in order of first occurrence: the order of a dict built from them. */
  function KeyOrder<R>(rs: seq<R>, key: R -> Key): (ks: seq<Key>)
    ensures forall i, j :: 0 <= i < j < |ks| ==> ks[i] != ks[j]
    ensures forall k :: k in ks <==> exists i :: 0 <= i < |rs| && key(rs[i]) == k
    ensures |ks| <= |rs|
    decreases |rs|
  {
    if rs == [] then []
    else
      var init := rs[..|rs| - 1];
      var ks := KeyOrder(init, key);
      assert forall i :: 0 <= i < |init| ==> init[i] == rs[i];
      if key(rs[|rs| - 1]) in ks then ks else ks + [key(rs[|rs| - 1])]
  }

  /** `d[key(r)] = val(r)` for each record in turn, from `{}`: a later record replaces an earlier one. */
  function Gather<R, V>(rs: seq<R>, key: R -> Key, val: R -> V): (d: Dict<V>)
    ensures d.WellFormed() && d.order == KeyOrder(rs, key)
    decreases |rs|
  {
    if rs == [] then EmptyDict()
    else
      var last := rs[|rs| - 1];
      Put(Gather(rs[..|rs| - 1], key, val), key(last), val(last))
  }

  /** `d.setdefault(key(r), val(r))` for each record in turn, from `{}`: the first record of a key stays. */
  function GatherFirst<R, V>(rs: seq<R>, key: R -> Key, val: R -> V): (d: Dict<V>)
    ensures d.WellFormed() && d.order == KeyOrder(rs, key)
    decreases |rs|
  {
    if rs == [] then EmptyDict()
    else
      var last := rs[|rs| - 1];
      SetDefault(GatherFirst(rs[..|rs| - 1], key, val), key(last), val(last))
  }

  /** The index of the last record with key `k`, or -1 when there is none. */
  function LastWith<R>(rs: seq<R>, key: R -> Key, k: Key): (i: int)
    ensures -1 <= i < |rs|
    ensures i >= 0 ==> key(rs[i]) == k
    ensures forall j :: i < j < |rs| ==> key(rs[j]) != k
    decreases |rs|
  {
    if rs == [] then -1
    else if key(rs[|rs| - 1]) == k then |rs| - 1
    else
      var i := LastWith(rs[..|rs| - 1], key, k);
      assert forall j :: i < j < |rs| - 1 ==> rs[..|rs| - 1][j] == rs[j];
      i
  }

  /** Each key of a gathered dict holds the value of the LAST record with that key. */
  lemma {:induction false} GatherLatest<R, V>(rs: seq<R>, key: R -> Key, val: R -> V, k: Key)
    requires k in Gather(rs, key, val).entries
    ensures LastWith(rs, key, k) >= 0 && Gather(rs, key, val).entries[k] == val(rs[LastWith(rs, key, k)])
    decreases |rs|
  {
    if rs == [] {
      assert false;
    } else {
      var init, last := rs[..|rs| - 1], rs[|rs| - 1];
      var before := Gather(init, key, val);
      assert Gather(rs, key, val).entries == before.entries[key(last) := val(last)];
      if key(last) != k {
        GatherLatest(init, key, val, k);
        assert init[LastWith(init, key, k)] == rs[LastWith(rs, key, k)];
      }
    }
  }

  /** The index of the first record with key `k`, or -1 when there is none. */
  function FirstWith<R>(rs: seq<R>, key: R -> Key, k: Key): (i: int)
    ensures -1 <= i < |rs|
    ensures i >= 0 ==> key(rs[i]) == k
    ensures forall j :: 0 <= j < |rs| && (i < 0 || j < i) ==> key(rs[j]) != k
    decreases |rs|
  {
    if rs == [] then -1
    else
      var i := FirstWith(rs[..|rs| - 1], key, k);
      assert forall j :: 0 <= j < |rs| - 1 ==> rs[..|rs| - 1][j] == rs[j];
      if i >= 0 then i
      else if key(rs[|rs| - 1]) == k then |rs| - 1
      else -1
  }

  /** Each key of a dict gathered with `setdefault` holds the value of the FIRST record with that key. */
  lemma {:induction false} GatherFirstEarliest<R, V>(rs: seq<R>, key: R -> Key, val: R -> V, k: Key)
    requires k in GatherFirst(rs, key, val).entries
    ensures FirstWith(rs, key, k) >= 0 && GatherFirst(rs, key, val).entries[k] == val(rs[FirstWith(rs, key, k)])
    decreases |rs|
  {
    if rs == [] {
      assert false;
    } else {
      var init, last := rs[..|rs| - 1], rs[|rs| - 1];
      var before := GatherFirst(init, key, val);
      assert GatherFirst(rs, key, val) == SetDefault(before, key(last), val(last));
      if k in before.entries {
        GatherFirstEarliest(init, key, val, k);
        assert init[FirstWith(init, key, k)] == rs[FirstWith(rs, key, k)];
      } else {
        assert k in before.order <==> k in KeyOrder(init, key);
        assert FirstWith(init, key, k) < 0;
      }
    }
  }

  /** One more record extends the gathered dict by one `d[key(r)] = val(r)`. */
  lemma GatherSnoc<R, V>(rs: seq<R>, r: R, key: R -> Key, val: R -> V)
    ensures Gather(rs + [r], key, val) == Put(Gather(rs, key, val), key(r), val(r))
    ensures GatherFirst(rs + [r], key, val) == SetDefault(GatherFirst(rs, key, val), key(r), val(r))
    ensures KeyOrder(rs + [r], key) == if key(r) in KeyOrder(rs, key) then KeyOrder(rs, key) else KeyOrder(rs, key) + [key(r)]
  {
    assert (rs + [r])[..|rs|] == rs;
  }

  // ---------------------------------------------------------------------
  // Cutting the record stream into flushes

  /** The groups of records already flushed, and those gathered since the last flush. */
  datatype Chunks<R> = Chunks(full: seq<seq<R>>, pending: seq<R>)

  /**
   * The loop's cut of `rs`: records are gathered until their dict reaches
   * SYNC_BATCH keys, which flushes it and starts an empty one.
   */
  function Chunk<R>(rs: seq<R>, key: R -> Key): Chunks<R>
    decreases |rs|
  {
    if rs == [] then Chunks([], [])
    else
      var c := Chunk(rs[..|rs| - 1], key);
      var pending := c.pending + [rs[|rs| - 1]];
      if |KeyOrder(pending, key)| == SyncBatch then Chunks(c.full + [pending], [])
      else Chunks(c.full, pending)
  }

  /** The record groups flushed: every full group, then the remainder when there is one. */
  function Flushes<R>(rs: seq<R>, key: R -> Key): seq<seq<R>>
  {
    var c := Chunk(rs, key);
    if c.pending == [] then c.full else c.full + [c.pending]
  }

  /** The groups laid end to end. */
  function Flatten<R>(groups: seq<seq<R>>): seq<R>
    decreases |groups|
  {
    if groups == [] then [] else Flatten(groups[..|groups| - 1]) + groups[|groups| - 1]
  }

  /** Laying one more group at the end appends its records. */
  lemma FlattenSnoc<R>(groups: seq<seq<R>>, g: seq<R>)
    ensures Flatten(groups + [g]) == Flatten(groups) + g
  {
    assert (groups + [g])[..|groups|] == groups;
  }

  /** A nonempty sequence is its front followed by its last element. */
  lemma SnocSplit<T>(s: seq<T>)
    requires s != []
    ensures s == s[..|s| - 1] + [s[|s| - 1]]
  {
  }

  /** Appending one element after a concatenation. */
  lemma SnocAssoc<T>(a: seq<T>, b: seq<T>, x: T)
    ensures a + (b + [x]) == (a + b) + [x]
  {
  }

  /** The cut loses, repeats and reorders no record. */
  lemma {:induction false} ChunkFlat<R>(rs: seq<R>, key: R -> Key)
    ensures Flatten(Chunk(rs, key).full) + Chunk(rs, key).pending == rs
    decreases |rs|
  {
    if rs != [] {
      var init, last := rs[..|rs| - 1], rs[|rs| - 1];
      ChunkFlat(init, key);
      var c := Chunk(init, key);
      var pending := c.pending + [last];
      SnocAssoc(Flatten(c.full), c.pending, last);
      assert rs == init + [last];
      if |KeyOrder(pending, key)| == SyncBatch {
        assert Chunk(rs, key) == Chunks(c.full + [pending], []);
        FlattenSnoc(c.full, pending);
      } else {
        assert Chunk(rs, key) == Chunks(c.full, pending);
      }
    }
  }

  /** Every flushed group holds exactly SYNC_BATCH keys; the pending group holds fewer. */
  lemma {:induction false} ChunkSizes<R>(rs: seq<R>, key: R -> Key)
    ensures forall g :: g in Chunk(rs, key).full ==> |KeyOrder(g, key)| == SyncBatch
    ensures |KeyOrder(Chunk(rs, key).pending, key)| < SyncBatch
    decreases |rs|
  {
    if rs != [] {
      var init, last := rs[..|rs| - 1], rs[|rs| - 1];
      ChunkSizes(init, key);
      var c := Chunk(init, key);
      KeyOrderSnoc(c.pending, last, key);
    }
  }

  /** One more record adds at most one key. */
  lemma KeyOrderSnoc<R>(rs: seq<R>, r: R, key: R -> Key)
    ensures |KeyOrder(rs + [r], key)| <= |KeyOrder(rs, key)| + 1
  {
    assert (rs + [r])[..|rs|] == rs;
  }

  /**
   * The cut loses, repeats and reorders no record; every flushed group
   * holds exactly SYNC_BATCH keys; the pending group holds fewer.
   */
  lemma ChunkCovers<R>(rs: seq<R>, key: R -> Key)
    ensures var c := Chunk(rs, key);
            && Flatten(c.full) + c.pending == rs
            && (forall g :: g in c.full ==> |KeyOrder(g, key)| == SyncBatch)
            && |KeyOrder(c.pending, key)| < SyncBatch
  {
    ChunkFlat(rs, key);
    ChunkSizes(rs, key);
  }

  /**
   * `sync_iterations`' and `sync_tasks`' batching: the flushes, laid end to
   * end, are the records in order; every flush holds between 1 and
   * SYNC_BATCH keys, and all but the last exactly SYNC_BATCH.
   */
  lemma FlushesCover<R>(rs: seq<R>, key: R -> Key)
    ensures var fs := Flushes(rs, key);
            && Flatten(fs) == rs
            && (forall i :: 0 <= i < |fs| ==> 0 < |KeyOrder(fs[i], key)| <= SyncBatch)
            && (forall i :: 0 <= i < |fs| - 1 ==> |KeyOrder(fs[i], key)| == SyncBatch)
  {
    ChunkCovers(rs, key);
    var c := Chunk(rs, key);
    if c.pending != [] {
      FlattenSnoc(c.full, c.pending);
      assert key(c.pending[0]) in KeyOrder(c.pending, key);
      forall i | 0 <= i < |c.full|
        ensures (c.full + [c.pending])[i] in c.full
      {
      }
    }
    assert forall i :: 0 <= i < |c.full| ==> c.full[i] in c.full;
  }

  /** One more record either joins the pending group or flushes it with that record. */
  lemma ChunkSnoc<R>(rs: seq<R>, r: R, key: R -> Key)
    ensures var c := Chunk(rs, key);
            var pending := c.pending + [r];
            Chunk(rs + [r], key) ==
              if |KeyOrder(pending, key)| == SyncBatch then Chunks(c.full + [pending], [])
              else Chunks(c.full, pending)
  {
    assert (rs + [r])[..|rs|] == rs;
  }

  /** The cut of the first `i + 1` records, from the cut of the first `i`. */
  lemma ChunkNext<R>(rs: seq<R>, i: nat, key: R -> Key, full: seq<seq<R>>, pending: seq<R>)
    requires i < |rs| && Chunk(rs[..i], key) == Chunks(full, pending)
    ensures var p := pending + [rs[i]];
            Chunk(rs[..i + 1], key) ==
              if |KeyOrder(p, key)| == SyncBatch then Chunks(full + [p], []) else Chunks(full, p)
  {
    assert rs[..i + 1] == rs[..i] + [rs[i]];
    ChunkSnoc(rs[..i], rs[i], key);
  }

  /** The flushes of `rs` from its cut: the full groups, then the pending one when it holds a record. */
  lemma FlushesOfChunk<R>(rs: seq<R>, key: R -> Key, full: seq<seq<R>>, pending: seq<R>)
    requires Chunk(rs, key) == Chunks(full, pending)
    ensures pending != [] <==> |KeyOrder(pending, key)| > 0
    ensures Flushes(rs, key) == if pending == [] then full else full + [pending]
  {
    if pending != [] {
      assert key(pending[0]) in KeyOrder(pending, key);
    }
  }

  // ---------------------------------------------------------------------
  // sync_iterations

  /** `since` as an entry point reads it: the argument, or `_sync_since(kind)` when it is not passed. */
  function SinceOf(since: Arg<Option<int>>, syncs: seq<SyncRow>, kind: SyncType): (r: Option<int>)
    ensures since.Passed? ==> r == since.value
    ensures since.Omitted? ==> r == LastSeen(syncs, kind)
  {
    if since.Omitted? then LastSeen(syncs, kind) else since.value
  }

  /** An iteration record from the connector: its `ext_id` and its other fields. */
  datatype IterationIn = IterationIn(extId: Value, rest: Fields)

  /** The batch key of an iteration record: its `ext_id`. */
  function IterationKey(x: IterationIn): Key
  {
    [x.extId]
  }

  /** The iteration record as the dict handed to `Iteration(**fields)`. */
  function IterationFields(x: IterationIn): (f: Fields)
    ensures KeyedBy(f, ["ext_id"], IterationKey(x))
    ensures forall c :: c in x.rest && c != "ext_id" ==> c in f && f[c] == x.rest[c]
  {
    x.rest["ext_id" := x.extId]
  }

  /** `pm.iterations(since=since, ids=ids)`: the connector's iteration records. */
  type IterationSource = (Option<int>, Option<set<string>>) -> seq<IterationIn>

  /** The dict one flush of iteration records hands to `_batch_sync`. */
  function IterationBatch(g: seq<IterationIn>): (d: Dict<Fields>)
    ensures d.WellFormed() && d.order == KeyOrder(g, IterationKey)
  {
    Gather(g, IterationKey, IterationFields)
  }

  /** Every entry of an iteration batch is keyed by its own `ext_id`, and carries `updated_on` when its record does. */
  lemma IterationBatchKeyed(g: seq<IterationIn>)
    ensures forall k :: k in IterationBatch(g).entries ==> KeyedBy(IterationBatch(g).entries[k], ["ext_id"], k)
    ensures (forall x :: x in g ==> "updated_on" in x.rest) ==> Stamped(IterationBatch(g), "updated_on")
  {
    forall k | k in IterationBatch(g).entries
      ensures exists x :: x in g && IterationKey(x) == k && IterationBatch(g).entries[k] == IterationFields(x)
    {
      GatherLatest(g, IterationKey, IterationFields, k);
      assert g[LastWith(g, IterationKey, k)] in g;
    }
  }

  /** The stamps of each flush of `gs` in turn, laid end to end. */
  function StampsOfFlushes<G>(gs: seq<G>, stamps: G -> seq<Option<int>>): seq<Option<int>>
    decreases |gs|
  {
    if gs == [] then [] else StampsOfFlushes(gs[..|gs| - 1], stamps) + stamps(gs[|gs| - 1])
  }

  /** One more flush appends its own stamps. */
  lemma StampsOfFlushesSnoc<G>(gs: seq<G>, g: G, stamps: G -> seq<Option<int>>)
    ensures StampsOfFlushes(gs + [g], stamps) == StampsOfFlushes(gs, stamps) + stamps(g)
  {
    assert (gs + [g])[..|gs|] == gs;
  }

  /** The stamps one flush of iteration records consumes when each row carries its record's `updated_on`. */
  function IterationStamps(g: seq<IterationIn>): seq<Option<int>>
  {
    EntryStamps(IterationBatch(g), "updated_on")
  }

  /** The stamps the flushes of `gs` consume when each row carries its record's `updated_on`. */
  function IterationFlushStamps(gs: seq<seq<IterationIn>>): seq<Option<int>>
  {
    StampsOfFlushes(gs, IterationStamps)
  }

  /** One record through the loop of `sync_iterations`: its dict grows by the record; the cut follows its size. */
  lemma IterationNext(records: seq<IterationIn>, i: nat, full: seq<seq<IterationIn>>, pending: seq<IterationIn>,
                      batch: Dict<Fields>)
    requires i < |records| && Chunk(records[..i], IterationKey) == Chunks(full, pending)
    requires batch == IterationBatch(pending)
    ensures var p := pending + [records[i]];
            var b := Put(batch, IterationKey(records[i]), IterationFields(records[i]));
            && b == IterationBatch(p)
            && Chunk(records[..i + 1], IterationKey) ==
                 if b.Size() == SyncBatch then Chunks(full + [p], []) else Chunks(full, p)
  {
    ChunkNext(records, i, IterationKey, full, pending);
    GatherSnoc(pending, records[i], IterationKey, IterationFields);
  }

  /** One more flush appends its own stamps. */
  lemma IterationFlushStampsSnoc(gs: seq<seq<IterationIn>>, g: seq<IterationIn>)
    ensures IterationFlushStamps(gs + [g]) == IterationFlushStamps(gs) + EntryStamps(IterationBatch(g), "updated_on")
  {
    StampsOfFlushesSnoc(gs, g, IterationStamps);
  }

  /** The records of `sync_iterations` all carry `updated_on`. */
  predicate IterationsStamped(records: seq<IterationIn>)
  {
    forall x :: x in records ==> "updated_on" in x.rest
  }

  /** Every record's `ext_id` has a stored Iteration row with that key. */
  ghost predicate IterationsStored(t: Table, rs: seq<IterationIn>)
  {
    forall x :: x in rs ==> HasRow(t, ["ext_id"], IterationKey(x))
  }

  /** A change that keeps every row's key keeps every record stored. */
  lemma IterationsStoredKept(before: Table, after: Table, rs: seq<IterationIn>)
    requires KeysKept(before, after, ["ext_id"]) && IterationsStored(before, rs)
    ensures IterationsStored(after, rs)
  {
    forall x | x in rs
      ensures HasRow(after, ["ext_id"], IterationKey(x))
    {
      HasRowKept(before, after, ["ext_id"], IterationKey(x));
    }
  }

  /** Every record of a flush has its key in the flush's dict. */
  lemma IterationBatchHas(g: seq<IterationIn>)
    ensures forall x :: x in g ==> IterationKey(x) in IterationBatch(g).entries
  {
    forall x | x in g
      ensures IterationKey(x) in IterationBatch(g).entries
    {
      var i :| 0 <= i < |g| && g[i] == x;
      assert IterationKey(g[i]) in KeyOrder(g, IterationKey);
    }
  }

  /**
   * One flush of `sync_iterations`: `_batch_sync(mark, batch, Iteration)`
   * on the dict of the records `g`, threading the mark and the stamps
   * consumed since `since`.
   */
  method FlushIterations(db: Database, ghost since: Option<int>, mark: Option<int>, batch: Dict<Fields>,
                         ghost g: seq<IterationIn>, construct: Construct,
                         ghost flushed: seq<seq<IterationIn>>, ghost consumed: seq<Option<int>>)
    returns (r: Result<Option<int>, SyncError>, ghost flushed': seq<seq<IterationIn>>,
             ghost consumed': seq<Option<int>>)
    requires db.Valid() && batch == IterationBatch(g) && mark == HighWater(since, consumed)
    modifies db
    ensures db.Valid() && db.syncs == old(db.syncs) && old(db.nextId) <= db.nextId
    ensures forall m :: m != Iterations ==> db.Rows(m) == old(db.Rows(m))
    ensures flushed' == flushed + [g]
    ensures r.Success? ==> r.value == HighWater(since, consumed')
    ensures r.Success? && KeepsFields(construct) && IterationsStamped(g) && consumed == IterationFlushStamps(flushed) ==>
              consumed' == IterationFlushStamps(flushed')
    ensures db.Rows(Iterations) ==
              if r.Success? && |batch.order| > 0
              then Upsert(old(db.Rows(Iterations)), old(db.nextId), batch, ["ext_id"], construct).table
              else old(db.Rows(Iterations))
    ensures KeysKept(old(db.Rows(Iterations)), db.Rows(Iterations), ["ext_id"])
    ensures r.Success? && KeepsFields(construct) ==> IterationsStored(db.Rows(Iterations), g)
    ensures r.Success? && KeepsFields(construct) && IterationsStored(old(db.Rows(Iterations)), Flatten(flushed)) ==>
              IterationsStored(db.Rows(Iterations), Flatten(flushed'))
  {
    ghost var t0 := db.Rows(Iterations);
    var rows;
    ghost var stamps;
    IterationBatchKeyed(g);
    assert KeyColumns(Iterations) == ["ext_id"] && SelfKeyed(batch, ["ext_id"]);
    r, rows, stamps := BatchSync(db, mark, batch, Iterations, ["ext_id"], "updated_on", construct);
    assert KeysKept(t0, db.Rows(Iterations), ["ext_id"]);
    IterationBatchHas(g);
    FlattenSnoc(flushed, g);
    if r.Success? && KeepsFields(construct) && IterationsStored(t0, Flatten(flushed)) {
      IterationsStoredKept(t0, db.Rows(Iterations), Flatten(flushed));
    }
    HighWaterConcat(since, consumed, stamps);
    IterationFlushStampsSnoc(flushed, g);
    flushed', consumed' := flushed + [g], consumed + stamps;
  }

  /**
   * The loop of `sync_iterations`: the records, flushed in the groups
   * `Flushes` cuts, the mark threaded through the flushes from `since`.
   * `consumed` is the stamps the flushes read, in order.
   */
  method FlushAllIterations(db: Database, since: Option<int>, records: seq<IterationIn>, construct: Construct)
    returns (r: Result<Option<int>, SyncError>, ghost flushed: seq<seq<IterationIn>>,
             ghost consumed: seq<Option<int>>)
    requires db.Valid()
    modifies db
    ensures db.Valid() && db.syncs == old(db.syncs) && old(db.nextId) <= db.nextId
    ensures forall m :: m != Iterations ==> db.Rows(m) == old(db.Rows(m))
    ensures r.Success? ==> r.value == HighWater(since, consumed) && flushed == Flushes(records, IterationKey)
    ensures r.Success? && KeepsFields(construct) && IterationsStamped(records) ==>
              consumed == IterationFlushStamps(flushed)
    ensures KeysKept(old(db.Rows(Iterations)), db.Rows(Iterations), ["ext_id"])
    ensures r.Success? && KeepsFields(construct) ==> IterationsStored(db.Rows(Iterations), records)
  {
    ghost var stamped := KeepsFields(construct) && IterationsStamped(records);
    var mark := since;
    var batch := EmptyDict();
    ghost var pending: seq<IterationIn> := [];
    flushed, consumed := [], [];
    assert records[..0] == [];
    var i := 0;
    while i < |records|
      invariant 0 <= i <= |records|
      invariant db.Valid() && db.syncs == old(db.syncs) && old(db.nextId) <= db.nextId
      invariant forall m :: m != Iterations ==> db.Rows(m) == old(db.Rows(m))
      invariant Chunk(records[..i], IterationKey) == Chunks(flushed, pending)
      invariant forall x :: x in pending ==> x in records
      invariant batch == IterationBatch(pending)
      invariant mark == HighWater(since, consumed)
      invariant stamped ==> consumed == IterationFlushStamps(flushed)
      invariant KeysKept(old(db.Rows(Iterations)), db.Rows(Iterations), ["ext_id"])
      invariant KeepsFields(construct) ==> IterationsStored(db.Rows(Iterations), Flatten(flushed))
    {
      var x := records[i];
      IterationNext(records, i, flushed, pending, batch);
      batch := Put(batch, IterationKey(x), IterationFields(x));
      pending := pending + [x];
      if batch.Size() == SyncBatch {
        ghost var before := db.Rows(Iterations);
        var res;
        res, flushed, consumed := FlushIterations(db, since, mark, batch, pending, construct, flushed, consumed);
        KeysKeptTrans(old(db.Rows(Iterations)), before, db.Rows(Iterations), ["ext_id"]);
        if res.Failure? {
          return Failure(res.error), flushed, consumed;
        }
        mark, batch, pending := res.value, EmptyDict(), [];
        i := i + 1;
        continue;
      }
      i := i + 1;
    }
    assert records[..i] == records;
    FlushesOfChunk(records, IterationKey, flushed, pending);
    if batch.Size() > 0 {
      ghost var before := db.Rows(Iterations);
      var res;
      res, flushed, consumed := FlushIterations(db, since, mark, batch, pending, construct, flushed, consumed);
      KeysKeptTrans(old(db.Rows(Iterations)), before, db.Rows(Iterations), ["ext_id"]);
      if res.Failure? {
        return Failure(res.error), flushed, consumed;
      }
      mark := res.value;
    }
    FlushesCover(records, IterationKey);
    r := Success(mark);
  }

  /**
   * `sync_iterations(since, ids)`: the connector's iteration records since
   * `since` (by default since the last iteration checkpoint) are flushed
   * through `_batch_sync` in the groups `Flushes` cuts, the mark threaded
   * through them, and the final mark recorded as an iteration checkpoint.
   * `consumed` is the stamps the flushes read, in order; with a constructor
   * that keeps its fields and records that carry `updated_on`, they are the
   * records' own (`IterationFlushStamps`). A failing flush stops the sync
   * and records nothing; the flushes before it stay committed.
   */
  method SyncIterations(db: Database, since: Arg<Option<int>>, ids: Option<set<string>>,
                        source: IterationSource, construct: Construct)
    returns (r: Result<Option<SyncRow>, SyncError>, ghost flushed: seq<seq<IterationIn>>,
             ghost consumed: seq<Option<int>>)
    requires db.Valid()
    modifies db
    ensures db.Valid() && old(db.nextId) <= db.nextId
    ensures forall m :: m != Iterations ==> db.Rows(m) == old(db.Rows(m))
    ensures r.Failure? ==> db.syncs == old(db.syncs)
    ensures r.Success? ==>
              var since0 := SinceOf(since, old(db.syncs), IterationSync);
              var mark := HighWater(since0, consumed);
              && flushed == Flushes(source(since0, ids), IterationKey)
              && r.value == (if mark.Some? then Some(SyncRow(mark.value, IterationSync)) else None)
              && db.syncs == old(db.syncs) + (if mark.Some? then [r.value.value] else [])
    ensures r.Success? && KeepsFields(construct)
              && IterationsStamped(source(SinceOf(since, old(db.syncs), IterationSync), ids)) ==>
              consumed == IterationFlushStamps(flushed)
    ensures KeysKept(old(db.Rows(Iterations)), db.Rows(Iterations), ["ext_id"])
    ensures r.Success? && KeepsFields(construct) ==>
              IterationsStored(db.Rows(Iterations), source(SinceOf(since, old(db.syncs), IterationSync), ids))
  {
    var since0 := SinceOf(since, db.syncs, IterationSync);
    var records := source(since0, ids);
    var res;
    res, flushed, consumed := FlushAllIterations(db, since0, records, construct);
    if res.Failure? {
      return Failure(res.error), flushed, consumed;
    }
    var row := RecordSync(db, IterationSync, res.value);
    r := Success(row);
  }
}
