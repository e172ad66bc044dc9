/**
 * `sync_tasks` and its per-batch helper `_batch_sync_tasks` (stackpm/sync.py).
 *
 * Each task record from the connector brings its events, the external id
 * of its iteration and its user. The loop gathers, per flush, four things:
 * the tasks by external id, the users by stripped email (the first record
 * of an email wins), the events that name an iteration by their natural
 * key, and the iteration external ids seen. A flush syncs the named
 * iterations, then the users, links each task to its user and iteration,
 * syncs the tasks (the only flush whose mark is kept), and finally re-keys
 * the events by the row ids of their iteration and task and syncs them.
 *
 * A relationship assignment (`task['user'] = user`) is modelled as the
 * foreign-key column it fills (`user_id`).
 */
module TaskSync {
  import opened Common
  import opened Store
  import opened Sync
  import opened SyncFlows

  // ---------------------------------------------------------------------
  // The records

  /** An event of a task record: its type, its time, the external id of its iteration and its other fields. */
  datatype EventIn = EventIn(kind: Value, occuredOn: Value, iterationExtId: Option<string>, rest: Fields)

  /**
   * A task record from the connector: its `ext_id`, its other fields, its
   * events, the external id of its iteration, and its user (the `email`
   * field as sent, and the user's other fields).
   */
  datatype TaskIn = TaskIn(extId: Value, rest: Fields, events: seq<EventIn>, iterationExtId: Option<string>,
                           userEmail: string, userRest: Fields)

  /** `pm.tasks(since=since, ids=ids)`: the connector's task records. */
  type TaskSource = (Option<int>, Option<set<string>>) -> seq<TaskIn>

  /** The characters Python's `str.strip()` removes from either end of an ASCII string. */
  predicate Blank(c: char)
  {
    c == ' ' || c == '\t' || c == '\n' || c == '\r' || c == '\U{B}' || c == '\U{C}'
  }

  /** `r` is a slice of `s` with only blanks before and after it. */
  ghost predicate BlankPadded(s: string, r: string)
  {
    exists i, j | 0 <= i <= j <= |s| ::
      && r == s[i..j]
      && (forall k | 0 <= k < i :: Blank(s[k]))
      && (forall k | j <= k < |s| :: Blank(s[k]))
  }

  /** A blank in front keeps the padding. */
  lemma PaddedFront(s: string, r: string)
    requires s != [] && Blank(s[0]) && BlankPadded(s[1..], r)
    ensures BlankPadded(s, r)
  {
    var i, j :| 0 <= i <= j <= |s| - 1 && r == s[1..][i..j]
                && (forall k | 0 <= k < i :: Blank(s[1..][k]))
                && (forall k | j <= k < |s| - 1 :: Blank(s[1..][k]));
    assert r == s[i + 1..j + 1];
    assert forall k | 1 <= k < |s| :: s[k] == s[1..][k - 1];
  }

  /** A blank behind keeps the padding. */
  lemma PaddedBack(s: string, r: string)
    requires s != [] && Blank(s[|s| - 1]) && BlankPadded(s[..|s| - 1], r)
    ensures BlankPadded(s, r)
  {
    var init := s[..|s| - 1];
    var i, j :| 0 <= i <= j <= |init| && r == init[i..j]
                && (forall k | 0 <= k < i :: Blank(init[k]))
                && (forall k | j <= k < |init| :: Blank(init[k]));
    assert r == s[i..j];
    assert forall k | 0 <= k < |init| :: s[k] == init[k];
  }

  /**
   * `s.strip()`: `s` without its leading and trailing blanks, that is the
   * slice of `s` between blanks that neither starts nor ends with one.
   */
  function Strip(s: string): (r: string)
    ensures r == [] || (!Blank(r[0]) && !Blank(r[|r| - 1]))
    ensures |r| <= |s|
    ensures (forall i :: 0 <= i < |s| ==> !Blank(s[i])) ==> r == s
    ensures BlankPadded(s, r)
    decreases |s|
  {
    if s == [] then
      assert s == s[0..0];
      s
    else if Blank(s[0]) then
      PaddedFront(s, Strip(s[1..]));
      Strip(s[1..])
    else if Blank(s[|s| - 1]) then
      PaddedBack(s, Strip(s[..|s| - 1]));
      Strip(s[..|s| - 1])
    else
      assert s == s[0..|s|];
      s
  }

  // ---------------------------------------------------------------------
  // What one task record adds to the dicts of a flush

  /** A task as the batch holds it before the flush: its fields, its user's stripped email and its iteration's external id. */
  datatype PendingTask = PendingTask(fields: Fields, email: string, iterationExtId: Option<string>)

  /** The batch key of a task record: its `ext_id`. */
  function TaskKey(t: TaskIn): Key
  {
    [t.extId]
  }

  /** A task record's own fields, without its events, iteration and user. */
  function TaskFields(t: TaskIn): (f: Fields)
    ensures KeyedBy(f, ["ext_id"], TaskKey(t))
  {
    t.rest["ext_id" := t.extId]
  }

  /** The batch entry of a task record. */
  function PendingOf(t: TaskIn): PendingTask
  {
    PendingTask(TaskFields(t), Strip(t.userEmail), t.iterationExtId)
  }

  /** The users dict key of a task record: its user's stripped email. */
  function UserKey(t: TaskIn): Key
  {
    [Text(Strip(t.userEmail))]
  }

  /** The user fields stored for a task record as written: the email as sent, unstripped. */
  function UserFieldsAsWritten(t: TaskIn): Fields
  {
    t.userRest["email" := Text(t.userEmail)]
  }

  /** The user fields stored for a task record: the email stripped, as its key. */
  function UserFields(t: TaskIn): (f: Fields)
    ensures KeyedBy(f, ["email"], UserKey(t))
  {
    t.userRest["email" := Text(Strip(t.userEmail))]
  }

  /** An event that names an iteration, with its own task. */
  datatype TaggedEvent = TaggedEvent(taskExtId: Value, iterationExtId: string, event: EventIn)

  /** The events of a task that name an iteration, in order, each with its task's `ext_id`. */
  function Tags(taskExtId: Value, evs: seq<EventIn>): (r: seq<TaggedEvent>)
    ensures forall e :: e in r ==> e.taskExtId == taskExtId
    decreases |evs|
  {
    if evs == [] then []
    else
      var init := Tags(taskExtId, evs[..|evs| - 1]);
      var ev := evs[|evs| - 1];
      if ev.iterationExtId.Some? then init + [TaggedEvent(taskExtId, ev.iterationExtId.value, ev)] else init
  }

  /** The iteration external ids the events of a task name. */
  function EventRefs(evs: seq<EventIn>): set<string>
    decreases |evs|
  {
    if evs == [] then {}
    else
      var init := EventRefs(evs[..|evs| - 1]);
      var ev := evs[|evs| - 1];
      if ev.iterationExtId.Some? then init + {ev.iterationExtId.value} else init
  }

  /** The natural key of an event before its task and iteration are stored: (type, iteration ext id, time, task ext id). */
  function EventKey(e: TaggedEvent): Key
  {
    [e.event.kind, Text(e.iterationExtId), e.event.occuredOn, e.taskExtId]
  }

  /** An event is stored in the events dict as itself. */
  function Itself(e: TaggedEvent): TaggedEvent
  {
    e
  }

  // ---------------------------------------------------------------------
  // The dicts of a flush, as functions of its task records

  /** `batch`: each task record's entry by `ext_id`; a later record of a task replaces an earlier one. */
  function TaskBatch(g: seq<TaskIn>): (d: Dict<PendingTask>)
    ensures d.WellFormed() && d.order == KeyOrder(g, TaskKey)
  {
    Gather(g, TaskKey, PendingOf)
  }

  /** `users` as written: the first user record of each stripped email, its email unstripped. */
  function UserBatchAsWritten(g: seq<TaskIn>): (d: Dict<Fields>)
    ensures d.WellFormed()
  {
    GatherFirst(g, UserKey, UserFieldsAsWritten)
  }

  /** `users`: the first user record of each stripped email, stored under that email. */
  function UserBatch(g: seq<TaskIn>): (d: Dict<Fields>)
    ensures d.WellFormed()
  {
    GatherFirst(g, UserKey, UserFields)
  }

  /** The events of the records, in order: only those that name an iteration. */
  function TaggedEvents(g: seq<TaskIn>): seq<TaggedEvent>
    decreases |g|
  {
    if g == [] then [] else TaggedEvents(g[..|g| - 1]) + Tags(g[|g| - 1].extId, g[|g| - 1].events)
  }

  /** `events`: each event that names an iteration, by its natural key; a later one replaces an earlier one. */
  function EventBatch(g: seq<TaskIn>): (d: Dict<TaggedEvent>)
    ensures d.WellFormed()
  {
    Gather(TaggedEvents(g), EventKey, Itself)
  }

  /** `iter_ext_ids`: the iterations the records name, through a task or one of its events. */
  function IterationRefs(g: seq<TaskIn>): set<string>
    decreases |g|
  {
    if g == [] then {}
    else
      var t := g[|g| - 1];
      IterationRefs(g[..|g| - 1]) + EventRefs(t.events)
        + (if t.iterationExtId.Some? then {t.iterationExtId.value} else {})
  }

  /** One more task record: its tagged events follow, and the iterations it names join. */
  lemma TaggedSnoc(g: seq<TaskIn>, t: TaskIn)
    ensures TaggedEvents(g + [t]) == TaggedEvents(g) + Tags(t.extId, t.events)
    ensures IterationRefs(g + [t]) == IterationRefs(g) + EventRefs(t.events)
              + (if t.iterationExtId.Some? then {t.iterationExtId.value} else {})
  {
    assert (g + [t])[..|g|] == g;
  }

  /** `d[key(r)] = val(r)` for each record of `rs` in turn, from `d`. */
  function PutAll<R, V>(d: Dict<V>, rs: seq<R>, key: R -> Key, val: R -> V): (e: Dict<V>)
    requires d.WellFormed()
    ensures e.WellFormed()
    decreases |rs|
  {
    if rs == [] then d
    else
      var last := rs[|rs| - 1];
      Put(PutAll(d, rs[..|rs| - 1], key, val), key(last), val(last))
  }

  /** Gathering `rs + qs` is gathering `rs`, then putting each of `qs`. */
  lemma {:induction false} GatherAppend<R, V>(rs: seq<R>, qs: seq<R>, key: R -> Key, val: R -> V)
    ensures Gather(rs + qs, key, val) == PutAll(Gather(rs, key, val), qs, key, val)
    decreases |qs|
  {
    if qs == [] {
      assert rs + qs == rs;
    } else {
      var init, last := qs[..|qs| - 1], qs[|qs| - 1];
      GatherAppend(rs, init, key, val);
      SnocSplit(qs);
      SnocAssoc(rs, init, last);
      GatherSnoc(rs + init, last, key, val);
      PutAllSnoc(Gather(rs, key, val), init, last, key, val);
    }
  }

  /** One more record of `rs`: put on top. */
  lemma PutAllSnoc<R, V>(d: Dict<V>, rs: seq<R>, r: R, key: R -> Key, val: R -> V)
    requires d.WellFormed()
    ensures PutAll(d, rs + [r], key, val) == Put(PutAll(d, rs, key, val), key(r), val(r))
  {
    assert (rs + [r])[..|rs|] == rs;
  }

  /** The events of a task up to the `j + 1`-st: the `j + 1`-st joins when it names an iteration. */
  lemma TagsNext(taskExtId: Value, evs: seq<EventIn>, j: nat)
    requires j < |evs|
    ensures var ev := evs[j];
            ev.iterationExtId.None? ==>
              Tags(taskExtId, evs[..j + 1]) == Tags(taskExtId, evs[..j]) && EventRefs(evs[..j + 1]) == EventRefs(evs[..j])
    ensures var ev := evs[j];
            ev.iterationExtId.Some? ==>
              && Tags(taskExtId, evs[..j + 1]) == Tags(taskExtId, evs[..j]) + [TaggedEvent(taskExtId, ev.iterationExtId.value, ev)]
              && EventRefs(evs[..j + 1]) == EventRefs(evs[..j]) + {ev.iterationExtId.value}
  {
    assert evs[..j + 1][..j] == evs[..j];
  }

  // ---------------------------------------------------------------------
  // The body of the loop of sync_tasks

  /**
   * The inner loop of `sync_tasks` over one task record's events: each
   * event that names an iteration is put in the events dict under its
   * natural key, and its iteration joins the ids to sync.
   */
  method GatherEvents(events: Dict<TaggedEvent>, refs: set<string>, t: TaskIn)
    returns (events': Dict<TaggedEvent>, refs': set<string>)
    requires events.WellFormed()
    ensures events' == PutAll(events, Tags(t.extId, t.events), EventKey, Itself)
    ensures refs' == refs + EventRefs(t.events)
  {
    events', refs' := events, refs;
    var j := 0;
    while j < |t.events|
      invariant 0 <= j <= |t.events|
      invariant events' == PutAll(events, Tags(t.extId, t.events[..j]), EventKey, Itself)
      invariant refs' == refs + EventRefs(t.events[..j])
    {
      var ev := t.events[j];
      TagsNext(t.extId, t.events, j);
      if ev.iterationExtId.Some? {
        var e := TaggedEvent(t.extId, ev.iterationExtId.value, ev);
        PutAllSnoc(events, Tags(t.extId, t.events[..j]), e, EventKey, Itself);
        events' := Put(events', EventKey(e), e);
        refs' := refs' + {ev.iterationExtId.value};
      }
      j := j + 1;
    }
    assert t.events[..j] == t.events;
  }

  /**
   * The events and iterations part of one pass of the loop of
   * `sync_tasks`: the record's events are gathered, then its own
   * iteration is added to the iterations named.
   */
  method GatherRefs(events: Dict<TaggedEvent>, refs: set<string>, ghost g: seq<TaskIn>, t: TaskIn)
    returns (events': Dict<TaggedEvent>, refs': set<string>)
    requires events == EventBatch(g) && refs == IterationRefs(g)
    ensures events' == EventBatch(g + [t]) && refs' == IterationRefs(g + [t])
  {
    events', refs' := GatherEvents(events, refs, t);
    if t.iterationExtId.Some? {
      refs' := refs' + {t.iterationExtId.value};
    }
    TaggedSnoc(g, t);
    GatherAppend(TaggedEvents(g), Tags(t.extId, t.events), EventKey, Itself);
  }

  /**
   * One pass of the loop of `sync_tasks`: the record's events and
   * iterations are gathered, its user is kept unless its stripped email is
   * already there, and its entry is put in the batch. The four dicts stay
   * the functions of the records gathered so far.
   */
  method GatherTask(batch: Dict<PendingTask>, users: Dict<Fields>, events: Dict<TaggedEvent>,
                    refs: set<string>, ghost g: seq<TaskIn>, t: TaskIn)
    returns (batch': Dict<PendingTask>, users': Dict<Fields>, events': Dict<TaggedEvent>, refs': set<string>)
    requires batch == TaskBatch(g) && users == UserBatch(g) && events == EventBatch(g) && refs == IterationRefs(g)
    ensures batch' == TaskBatch(g + [t]) && users' == UserBatch(g + [t])
    ensures events' == EventBatch(g + [t]) && refs' == IterationRefs(g + [t])
  {
    events', refs' := GatherRefs(events, refs, g, t);
    var email := Strip(t.userEmail);
    users' := SetDefault(users, [Text(email)], UserFields(t));
    batch' := Put(batch, TaskKey(t), PendingTask(TaskFields(t), email, t.iterationExtId));
    GatherSnoc(g, t, TaskKey, PendingOf);
    GatherSnoc(g, t, UserKey, UserFields);
  }

  // ---------------------------------------------------------------------
  // _batch_sync_tasks: the iterations

  /** The syncs after an operation are those before it, followed by checkpoints of `kind` only. */
  predicate Appended(before: seq<SyncRow>, after: seq<SyncRow>, kind: SyncType)
  {
    && |before| <= |after| && after[..|before|] == before
    && forall i :: |before| <= i < |after| ==> after[i].kind == kind
  }

  /** `iters`: the row of each stored Iteration whose `ext_id` is one of `refs`, and only those. */
  ghost predicate IterationsOf(t: Table, refs: set<string>, iters: map<string, nat>)
  {
    && (forall x :: x in iters ==> x in refs && iters[x] in t && Column(t[iters[x]], "ext_id") == Text(x))
    && (forall x, id :: x in refs && id in t && Column(t[id], "ext_id") == Text(x) ==> x in iters)
  }

  /**
   * The query of `_batch_sync_tasks` for the Iterations whose `ext_id` is
   * one of `refs`, kept as a map from `ext_id` to row.
   */
  method FindIterations(t: Table, refs: set<string>) returns (iters: map<string, nat>)
    ensures IterationsOf(t, refs, iters)
  {
    iters := map[];
    var todo := t.Keys;
    while todo != {}
      invariant todo <= t.Keys
      invariant forall x :: x in iters ==> x in refs && iters[x] in t && Column(t[iters[x]], "ext_id") == Text(x)
      invariant forall x, id :: x in refs && id in t && id !in todo && Column(t[id], "ext_id") == Text(x) ==> x in iters
      decreases todo
    {
      var id :| id in todo;
      var v := Column(t[id], "ext_id");
      if v.Text? && v.s in refs {
        iters := iters[v.s := id];
      }
      todo := todo - {id};
    }
  }

  /**
   * The first step of `_batch_sync_tasks`: when the records name any
   * iteration, `sync_iterations(ids=refs)` (since the last iteration
   * checkpoint), then the stored Iterations of those ids.
   */
  method SyncNamedIterations(db: Database, refs: set<string>, source: IterationSource, construct: Construct)
    returns (r: Result<map<string, nat>, SyncError>)
    requires db.Valid()
    modifies db
    ensures db.Valid() && old(db.nextId) <= db.nextId
    ensures forall m :: m != Iterations ==> db.Rows(m) == old(db.Rows(m))
    ensures Appended(old(db.syncs), db.syncs, IterationSync)
    ensures r.Success? ==> IterationsOf(db.Rows(Iterations), refs, r.value)
    ensures refs == {} ==> r == Success(map[])
    ensures TablesKept(old(db.tables), db.tables)
  {
    ghost var tables0 := db.tables;
    if |refs| == 0 {
      return Success(map[]);
    }
    var res, _, _ := SyncIterations(db, Omitted, Some(refs), source, construct);
    TablesKeptBy(tables0, db, Iterations);
    if res.Failure? {
      return Failure(res.error);
    }
    var iters := FindIterations(db.Rows(Iterations), refs);
    r := Success(iters);
  }

  // ---------------------------------------------------------------------
  // _batch_sync_tasks: the users

  /** Every entry of the users dict carries its own key as its email. */
  predicate KeyedByEmail(users: Dict<Fields>)
  {
    forall k :: k in users.entries ==> KeyedBy(users.entries[k], ["email"], k)
  }

  /** Each email key's row is a stored User with that email. */
  ghost predicate UsersStored(userRows: map<Key, nat>, users: Table)
  {
    forall k :: k in userRows ==> userRows[k] in users && |k| == 1 && Column(users[userRows[k]], "email") == k[0]
  }

  /**
   * `_batch_sync(None, users, User, ext_id='email')`: each email of the
   * dict gets its row; with a constructor that keeps its fields and
   * entries that carry their own email, that row's email is the key.
   */
  method SyncUsers(db: Database, users: Dict<Fields>, construct: Construct)
    returns (r: Result<map<Key, nat>, SyncError>)
    requires db.Valid() && users.WellFormed()
    modifies db
    ensures db.Valid() && db.syncs == old(db.syncs) && old(db.nextId) <= db.nextId
    ensures forall m :: m != Users ==> db.Rows(m) == old(db.Rows(m))
    ensures r.Success? ==> r.value.Keys == users.entries.Keys && forall k :: k in r.value ==> r.value[k] in db.Rows(Users)
    ensures r.Success? && KeepsFields(construct) && KeyedByEmail(users) ==> UsersStored(r.value, db.Rows(Users))
    ensures KeyedByEmail(users) ==> TablesKept(old(db.tables), db.tables)
    ensures r.Success? && KeepsFields(construct) && KeyedByEmail(users) ==>
              UsersHaveRows(users, db.Rows(Users))
  {
    ghost var tables0 := db.tables;
    var res, rows, _ := BatchSync(db, None, users, Users, ["email"], "updated_on", construct);
    if KeyedByEmail(users) {
      TablesKeptBy(tables0, db, Users);
    }
    if res.Failure? {
      return Failure(res.error);
    }
    r := Success(rows);
  }

  // ---------------------------------------------------------------------
  // _batch_sync_tasks: the tasks

  /** The row an iteration external id links to: the stored Iteration of that `ext_id`, or NULL. */
  function IterationRef(x: Option<string>, iters: map<string, nat>): Value
  {
    if x.Some? && x.value in iters then Num(iters[x.value]) else Null
  }

  /** Every task's stripped email has its user row. */
  predicate UsersKnown(batch: Dict<PendingTask>, userRows: map<Key, nat>)
  {
    forall k :: k in batch.entries ==> [Text(batch.entries[k].email)] in userRows
  }

  /** Every task of the batch carries its own key as its `ext_id`. */
  predicate TasksKeyed(batch: Dict<PendingTask>)
  {
    forall k :: k in batch.entries ==> KeyedBy(batch.entries[k].fields, ["ext_id"], k)
  }

  /** Linking sets only the user and the iteration, so a task keyed by its `ext_id` stays keyed. */
  lemma LinkedKeyed(batch: Dict<PendingTask>, userRows: map<Key, nat>, iters: map<string, nat>)
    requires batch.WellFormed() && UsersKnown(batch, userRows) && TasksKeyed(batch)
    ensures SelfKeyed(Linked(batch, userRows, iters), ["ext_id"])
  {
    forall k | k in batch.entries
      ensures KeyedBy(Link(batch.entries[k], userRows, iters), ["ext_id"], k)
    {
      var keyFields: seq<string> := ["ext_id"];
      assert keyFields[0] == "ext_id" && "ext_id" in batch.entries[k].fields;
      assert Link(batch.entries[k], userRows, iters)["ext_id"] == batch.entries[k].fields["ext_id"];
    }
  }

  /** A task's fields with its user and its iteration set (`task['user'] = ...; task['iteration'] = ...`). */
  function Link(p: PendingTask, userRows: map<Key, nat>, iters: map<string, nat>): Fields
    requires [Text(p.email)] in userRows
  {
    p.fields["user_id" := Num(userRows[[Text(p.email)]])]["iteration_id" := IterationRef(p.iterationExtId, iters)]
  }

  /** The batch after the linking loop: the same keys in the same order, each task linked. */
  function Linked(batch: Dict<PendingTask>, userRows: map<Key, nat>, iters: map<string, nat>): (d: Dict<Fields>)
    requires batch.WellFormed() && UsersKnown(batch, userRows)
    ensures d.WellFormed()
  {
    Dict(batch.order, map k | k in batch.entries :: Link(batch.entries[k], userRows, iters))
  }

  /** The linking loop of `_batch_sync_tasks`, over the batch in order. */
  method LinkTasks(batch: Dict<PendingTask>, userRows: map<Key, nat>, iters: map<string, nat>)
    returns (linked: Dict<Fields>)
    requires batch.WellFormed() && UsersKnown(batch, userRows)
    ensures linked == Linked(batch, userRows, iters)
  {
    var entries: map<Key, Fields> := map[];
    var i := 0;
    while i < |batch.order|
      invariant 0 <= i <= |batch.order|
      invariant forall k :: k in entries <==> k in batch.order[..i]
      invariant forall k :: k in entries ==> k in batch.entries && entries[k] == Link(batch.entries[k], userRows, iters)
    {
      var k := batch.order[i];
      assert k in batch.order;
      entries := entries[k := Link(batch.entries[k], userRows, iters)];
      assert batch.order[..i + 1] == batch.order[..i] + [k];
      i := i + 1;
    }
    assert batch.order[..i] == batch.order;
    linked := Dict(batch.order, entries);
  }

  /** The stamps of the tasks' own fields, in batch order. */
  function PendingStamps(batch: Dict<PendingTask>): (s: seq<Option<int>>)
    requires batch.WellFormed()
    ensures |s| == |batch.order|
  {
    assert forall i :: 0 <= i < |batch.order| ==> batch.order[i] in batch.order;
    seq(|batch.order|, i requires 0 <= i < |batch.order| => Stamp(batch.entries[batch.order[i]].fields, "updated_on"))
  }

  /** Every task carries `updated_on`. */
  predicate PendingStamped(batch: Dict<PendingTask>)
  {
    forall k :: k in batch.entries ==> "updated_on" in batch.entries[k].fields
  }

  /** Linking sets no stamp: the linked batch has the tasks' own stamps. */
  lemma LinkedStamps(batch: Dict<PendingTask>, userRows: map<Key, nat>, iters: map<string, nat>)
    requires batch.WellFormed() && UsersKnown(batch, userRows) && PendingStamped(batch)
    ensures Stamped(Linked(batch, userRows, iters), "updated_on")
    ensures EntryStamps(Linked(batch, userRows, iters), "updated_on") == PendingStamps(batch)
  {
    var d := Linked(batch, userRows, iters);
    assert forall i :: 0 <= i < |batch.order| ==> batch.order[i] in batch.order;
    assert forall k :: k in d.entries ==> d.entries[k]["updated_on"] == batch.entries[k].fields["updated_on"];
  }

  /**
   * The linking loop and `_batch_sync(since, batch, Task)`: the mark is
   * raised by the tasks' rows; with a constructor that keeps its fields,
   * each task's row carries its linked fields, and the stamps read are
   * the tasks' own when every task carries one.
   */
  method SyncLinkedTasks(db: Database, mark: Option<int>, batch: Dict<PendingTask>, userRows: map<Key, nat>,
                         iters: map<string, nat>, construct: Construct)
    returns (r: Result<Option<int>, SyncError>, taskRows: map<Key, nat>, ghost stamps: seq<Option<int>>)
    requires db.Valid() && batch.WellFormed() && UsersKnown(batch, userRows)
    modifies db
    ensures db.Valid() && db.syncs == old(db.syncs) && old(db.nextId) <= db.nextId
    ensures forall m :: m != Tasks ==> db.Rows(m) == old(db.Rows(m))
    ensures r.Success? ==> r.value == HighWater(mark, stamps)
    ensures r.Success? ==> taskRows.Keys == batch.entries.Keys && forall k :: k in taskRows ==> taskRows[k] in db.Rows(Tasks)
    ensures r.Success? && KeepsFields(construct) ==>
              forall k :: k in batch.entries ==>
                Extends(db.Rows(Tasks)[taskRows[k]], Link(batch.entries[k], userRows, iters))
    ensures r.Success? && KeepsFields(construct) && PendingStamped(batch) ==> stamps == PendingStamps(batch)
    ensures TasksKeyed(batch) ==> TablesKept(old(db.tables), db.tables)
  {
    var linked := LinkTasks(batch, userRows, iters);
    assert linked.entries.Keys == batch.entries.Keys;
    if TasksKeyed(batch) {
      LinkedKeyed(batch, userRows, iters);
    }
    r, taskRows, stamps := BatchSync(db, mark, linked, Tasks, ["ext_id"], "updated_on", construct);
    if r.Success? && KeepsFields(construct) {
      ghost var tasks := db.Rows(Tasks);
      forall k | k in batch.entries
        ensures Extends(tasks[taskRows[k]], Link(batch.entries[k], userRows, iters))
      {
        assert k in taskRows && taskRows[k] in tasks && Extends(tasks[taskRows[k]], linked.entries[k]);
      }
    }
    if r.Success? && KeepsFields(construct) && PendingStamped(batch) {
      LinkedStamps(batch, userRows, iters);
    }
  }

  // ---------------------------------------------------------------------
  // _batch_sync_tasks: the events


  /** Every event's task has its row. */
  predicate TasksKnown(events: Dict<TaggedEvent>, taskRows: map<Key, nat>)
  {
    forall k :: k in events.entries ==> [events.entries[k].taskExtId] in taskRows
  }

  /** The new key of an event: its iteration and task replaced by their row ids (`None` for a missing iteration). */
  function NewEventKey(e: TaggedEvent, iters: map<string, nat>, taskRows: map<Key, nat>): Key
    requires [e.taskExtId] in taskRows
  {
    [e.event.kind, IterationRef(Some(e.iterationExtId), iters), e.event.occuredOn, Num(taskRows[[e.taskExtId]])]
  }

  /** The fields of an event with its iteration and task set; they carry its new key. */
  function EventFields(e: TaggedEvent, iters: map<string, nat>, taskRows: map<Key, nat>): (f: Fields)
    requires [e.taskExtId] in taskRows
    ensures KeyedBy(f, EventKeyFields, NewEventKey(e, iters, taskRows))
    ensures "occured_on" in f
  {
    e.event.rest["type" := e.event.kind]["occured_on" := e.event.occuredOn]
      ["iteration_id" := IterationRef(Some(e.iterationExtId), iters)]["task_id" := Num(taskRows[[e.taskExtId]])]
  }

  /** The new key of the `i`-th event. */
  function NewKeyAt(events: Dict<TaggedEvent>, i: nat, iters: map<string, nat>, taskRows: map<Key, nat>): Key
    requires events.WellFormed() && i < |events.order| && TasksKnown(events, taskRows)
  {
    assert events.order[i] in events.order;
    NewEventKey(events.entries[events.order[i]], iters, taskRows)
  }

  /** The re-keyed fields of the `i`-th event; they carry its new key and a time. */
  function FieldsAt(events: Dict<TaggedEvent>, i: nat, iters: map<string, nat>, taskRows: map<Key, nat>): (f: Fields)
    requires events.WellFormed() && i < |events.order| && TasksKnown(events, taskRows)
    ensures KeyedBy(f, EventKeyFields, NewKeyAt(events, i, iters, taskRows)) && "occured_on" in f
  {
    assert events.order[i] in events.order;
    EventFields(events.entries[events.order[i]], iters, taskRows)
  }

  /** The new key and fields of each of the first `n` events, in order. */
  function RekeyPairs(events: Dict<TaggedEvent>, n: nat, iters: map<string, nat>, taskRows: map<Key, nat>)
    : (ps: seq<(Key, Fields)>)
    requires events.WellFormed() && n <= |events.order| && TasksKnown(events, taskRows)
    ensures |ps| == n
  {
    if n == 0 then []
    else RekeyPairs(events, n - 1, iters, taskRows) + [(NewKeyAt(events, n - 1, iters, taskRows), FieldsAt(events, n - 1, iters, taskRows))]
  }

  /** `d[k] = f` for each pair in turn, from `{}`: a later pair with the same key replaces an earlier one. */
  function PutPairs(ps: seq<(Key, Fields)>): (d: Dict<Fields>)
    ensures d.WellFormed()
    decreases |ps|
  {
    if ps == [] then EmptyDict()
    else Put(PutPairs(ps[..|ps| - 1]), ps[|ps| - 1].0, ps[|ps| - 1].1)
  }

  /** `new_events` after the first `n` events, in order: a later event with the same new key replaces an earlier one. */
  function Rekeyed(events: Dict<TaggedEvent>, n: nat, iters: map<string, nat>, taskRows: map<Key, nat>)
    : (d: Dict<Fields>)
    requires events.WellFormed() && n <= |events.order| && TasksKnown(events, taskRows)
    ensures d.WellFormed()
  {
    PutPairs(RekeyPairs(events, n, iters, taskRows))
  }

  /** One more event puts its re-keyed fields under its new key. */
  lemma RekeyedSnoc(events: Dict<TaggedEvent>, n: nat, iters: map<string, nat>, taskRows: map<Key, nat>)
    requires events.WellFormed() && n < |events.order| && TasksKnown(events, taskRows)
    ensures Rekeyed(events, n + 1, iters, taskRows)
         == Put(Rekeyed(events, n, iters, taskRows), NewKeyAt(events, n, iters, taskRows), FieldsAt(events, n, iters, taskRows))
  {
    var p := (NewKeyAt(events, n, iters, taskRows), FieldsAt(events, n, iters, taskRows));
    assert RekeyPairs(events, n + 1, iters, taskRows) == RekeyPairs(events, n, iters, taskRows) + [p];
    PutPairsSnoc(RekeyPairs(events, n, iters, taskRows), p);
  }

  /** One more pair is one more `d[k] = f`. */
  lemma PutPairsSnoc(ps: seq<(Key, Fields)>, p: (Key, Fields))
    ensures PutPairs(ps + [p]) == Put(PutPairs(ps), p.0, p.1)
  {
    assert (ps + [p])[..|ps|] == ps;
  }

  /** The `i`-th pair is the new key and fields of the `i`-th event. */
  lemma {:induction false} RekeyPairsAt(events: Dict<TaggedEvent>, n: nat, iters: map<string, nat>,
                                        taskRows: map<Key, nat>, i: nat)
    requires events.WellFormed() && i < n <= |events.order| && TasksKnown(events, taskRows)
    ensures RekeyPairs(events, n, iters, taskRows)[i] == (NewKeyAt(events, i, iters, taskRows), FieldsAt(events, i, iters, taskRows))
  {
    var prev := RekeyPairs(events, n - 1, iters, taskRows);
    var p := (NewKeyAt(events, n - 1, iters, taskRows), FieldsAt(events, n - 1, iters, taskRows));
    assert RekeyPairs(events, n, iters, taskRows) == prev + [p];
    if i < n - 1 {
      RekeyPairsAt(events, n - 1, iters, taskRows, i);
      assert (prev + [p])[i] == prev[i];
    }
  }

  /** Each entry of `m` carries its own key as its `keyFields`, and the column `c`. */
  predicate AllKeyed(m: map<Key, Fields>, keyFields: seq<string>, c: string)
  {
    forall k :: k in m ==> KeyedBy(m[k], keyFields, k) && c in m[k]
  }

  lemma KeyedUpdate(m: map<Key, Fields>, keyFields: seq<string>, c: string, k: Key, f: Fields)
    requires AllKeyed(m, keyFields, c) && KeyedBy(f, keyFields, k) && c in f
    ensures AllKeyed(m[k := f], keyFields, c)
  {
  }

  lemma ExtendsKeyed(big: Fields, small: Fields, keyFields: seq<string>, k: Key)
    requires Extends(big, small) && KeyedBy(small, keyFields, k)
    ensures KeyedBy(big, keyFields, k)
  {
  }

  /** When every pair's fields carry its key, so does every entry of the dict built from them. */
  lemma {:induction false} PutPairsKeyed(ps: seq<(Key, Fields)>, keyFields: seq<string>, c: string)
    requires forall i :: 0 <= i < |ps| ==> KeyedBy(ps[i].1, keyFields, ps[i].0) && c in ps[i].1
    ensures AllKeyed(PutPairs(ps).entries, keyFields, c)
    decreases |ps|
  {
    if ps != [] {
      var init := ps[..|ps| - 1];
      assert forall i :: 0 <= i < |init| ==> init[i] == ps[i];
      PutPairsKeyed(init, keyFields, c);
      KeyedUpdate(PutPairs(init).entries, keyFields, c, ps[|ps| - 1].0, ps[|ps| - 1].1);
    }
  }

  /** Every pair's key is a key of the dict built from them. */
  lemma {:induction false} PutPairsHas(ps: seq<(Key, Fields)>, i: nat)
    requires i < |ps|
    ensures ps[i].0 in PutPairs(ps).entries
    decreases |ps|
  {
    if i < |ps| - 1 {
      var init := ps[..|ps| - 1];
      PutPairsHas(init, i);
      assert init[i] == ps[i];
    }
  }

  /** Re-keying mislabels no event: each entry of `new_events` carries its own key and a time. */
  lemma RekeyedKeyed(events: Dict<TaggedEvent>, n: nat, iters: map<string, nat>, taskRows: map<Key, nat>)
    requires events.WellFormed() && n <= |events.order| && TasksKnown(events, taskRows)
    ensures AllKeyed(Rekeyed(events, n, iters, taskRows).entries, EventKeyFields, "occured_on")
  {
    var ps := RekeyPairs(events, n, iters, taskRows);
    forall i | 0 <= i < |ps|
      ensures KeyedBy(ps[i].1, EventKeyFields, ps[i].0) && "occured_on" in ps[i].1
    {
      RekeyPairsAt(events, n, iters, taskRows, i);
    }
    PutPairsKeyed(ps, EventKeyFields, "occured_on");
  }

  /** Re-keying loses no event: the new key of each of the first `n` events is in `new_events`. */
  lemma RekeyedCovers(events: Dict<TaggedEvent>, n: nat, iters: map<string, nat>, taskRows: map<Key, nat>)
    requires events.WellFormed() && n <= |events.order| && TasksKnown(events, taskRows)
    ensures forall i :: 0 <= i < n ==> NewKeyAt(events, i, iters, taskRows) in Rekeyed(events, n, iters, taskRows).entries
  {
    var ps := RekeyPairs(events, n, iters, taskRows);
    forall i | 0 <= i < n
      ensures NewKeyAt(events, i, iters, taskRows) in PutPairs(ps).entries
    {
      RekeyPairsAt(events, n, iters, taskRows, i);
      PutPairsHas(ps, i);
    }
  }

  /** Once `new_events` is stored, every event has a row carrying its new key. */
  lemma RekeyedRows(events: Dict<TaggedEvent>, iters: map<string, nat>, taskRows: map<Key, nat>,
                    rows: map<Key, nat>, t: Table)
    requires events.WellFormed() && TasksKnown(events, taskRows)
    requires var d := Rekeyed(events, |events.order|, iters, taskRows);
             rows.Keys == d.entries.Keys && forall k :: k in rows ==> rows[k] in t && Extends(t[rows[k]], d.entries[k])
    ensures forall k :: k in events.entries ==>
              && NewEventKey(events.entries[k], iters, taskRows) in rows
              && rows[NewEventKey(events.entries[k], iters, taskRows)] in t
              && KeyedBy(t[rows[NewEventKey(events.entries[k], iters, taskRows)]], EventKeyFields,
                         NewEventKey(events.entries[k], iters, taskRows))
  {
    var d := Rekeyed(events, |events.order|, iters, taskRows);
    RekeyedKeyed(events, |events.order|, iters, taskRows);
    RekeyedCovers(events, |events.order|, iters, taskRows);
    forall k | k in events.entries
      ensures NewEventKey(events.entries[k], iters, taskRows) in rows
      ensures KeyedBy(t[rows[NewEventKey(events.entries[k], iters, taskRows)]], EventKeyFields,
                      NewEventKey(events.entries[k], iters, taskRows))
    {
      var i :| 0 <= i < |events.order| && events.order[i] == k;
      var nk := NewKeyAt(events, i, iters, taskRows);
      assert nk in d.entries;
      ExtendsKeyed(t[rows[nk]], d.entries[nk], EventKeyFields, nk);
    }
  }

  /** The re-keying loop of `_batch_sync_tasks`, over the events in order. */
  method RekeyEvents(events: Dict<TaggedEvent>, iters: map<string, nat>, taskRows: map<Key, nat>)
    returns (rekeyed: Dict<Fields>)
    requires events.WellFormed() && TasksKnown(events, taskRows)
    ensures rekeyed == Rekeyed(events, |events.order|, iters, taskRows)
  {
    rekeyed := EmptyDict();
    for i := 0 to |events.order|
      invariant rekeyed == Rekeyed(events, i, iters, taskRows)
    {
      var k := events.order[i];
      assert k in events.order;
      var e := events.entries[k];
      rekeyed := Put(rekeyed, NewEventKey(e, iters, taskRows), EventFields(e, iters, taskRows));
      RekeyedSnoc(events, i, iters, taskRows);
    }
  }

  /**
   * The re-keying loop and `_batch_sync(None, new_events, Event,
   * updated_on='occured_on', ext_id=[...])`: with a constructor that
   * keeps its fields, each event has a stored row carrying its new key.
   */
  method SyncRekeyedEvents(db: Database, events: Dict<TaggedEvent>, iters: map<string, nat>,
                           taskRows: map<Key, nat>, construct: Construct)
    returns (r: Result<Option<int>, SyncError>, ghost eventRows: map<Key, nat>)
    requires db.Valid() && events.WellFormed() && TasksKnown(events, taskRows)
    modifies db
    ensures db.Valid() && db.syncs == old(db.syncs) && old(db.nextId) <= db.nextId
    ensures forall m :: m != Events ==> db.Rows(m) == old(db.Rows(m))
    ensures r.Success? && KeepsFields(construct) ==>
              forall k :: k in events.entries ==>
                && k in eventRows && eventRows[k] in db.Rows(Events)
                && KeyedBy(db.Rows(Events)[eventRows[k]], EventKeyFields, NewEventKey(events.entries[k], iters, taskRows))
    ensures TablesKept(old(db.tables), db.tables)
  {
    var rekeyed := RekeyEvents(events, iters, taskRows);
    RekeyedKeyed(events, |events.order|, iters, taskRows);
    var rows;
    ghost var stamps;
    r, rows, stamps := BatchSync(db, None, rekeyed, Events, EventKeyFields, "occured_on", construct);
    eventRows := map k | k in events.entries && NewEventKey(events.entries[k], iters, taskRows) in rows ::
                   rows[NewEventKey(events.entries[k], iters, taskRows)];
    if r.Success? && KeepsFields(construct) {
      RekeyedRows(events, iters, taskRows, rows, db.Rows(Events));
    }
  }

  // ---------------------------------------------------------------------
  // _batch_sync_tasks

  /** What the gathering loop guarantees the tasks of a flush: their users and iterations are in it. */
  predicate TasksReady(batch: Dict<PendingTask>, users: Dict<Fields>, refs: set<string>)
  {
    forall k :: k in batch.entries ==>
      && [Text(batch.entries[k].email)] in users.entries
      && (batch.entries[k].iterationExtId.Some? ==> batch.entries[k].iterationExtId.value in refs)
  }

  /** What the gathering loop guarantees the events of a flush: their tasks and iterations are in it. */
  predicate EventsReady(events: Dict<TaggedEvent>, batch: Dict<PendingTask>, refs: set<string>)
  {
    forall k :: k in events.entries ==>
      [events.entries[k].taskExtId] in batch.entries && events.entries[k].iterationExtId in refs
  }

  /**
   * An `iteration_id` as linked for the iteration external id `x`: the
   * stored Iteration of that `ext_id`, and NULL exactly when there is none
   * (or no id was given).
   */
  ghost predicate IterationLinks(v: Value, x: Option<string>, iterations: Table)
  {
    && (v == Null <==> x.None? || forall id :: id in iterations ==> Column(iterations[id], "ext_id") != Text(x.value))
    && (v != Null ==> v.Num? && v.n in iterations && x.Some? && Column(iterations[v.n], "ext_id") == Text(x.value))
  }

  /**
   * A stored task row linked as `_batch_sync_tasks` links it: its own
   * fields, the User of its stripped email, and its iteration.
   */
  ghost predicate TaskLinked(row: Fields, p: PendingTask, users: Table, iterations: Table)
  {
    && (forall c :: c in p.fields && c != "user_id" && c != "iteration_id" ==> c in row && row[c] == p.fields[c])
    && "user_id" in row && row["user_id"].Num? && row["user_id"].n in users
    && Column(users[row["user_id"].n], "email") == Text(p.email)
    && "iteration_id" in row && IterationLinks(row["iteration_id"], p.iterationExtId, iterations)
  }

  /** Every task of the batch has its row, linked. */
  ghost predicate TasksLinked(batch: Dict<PendingTask>, taskRows: map<Key, nat>, tasks: Table, users: Table,
                              iterations: Table)
  {
    forall k :: k in batch.entries ==>
      k in taskRows && taskRows[k] in tasks && TaskLinked(tasks[taskRows[k]], batch.entries[k], users, iterations)
  }

  /** A stored event row with the type and time of `e`, its task's row and its iteration. */
  ghost predicate EventLinked(row: Fields, e: TaggedEvent, taskRow: nat, iterations: Table)
  {
    && "type" in row && row["type"] == e.event.kind
    && "occured_on" in row && row["occured_on"] == e.event.occuredOn
    && "task_id" in row && row["task_id"] == Num(taskRow)
    && "iteration_id" in row && IterationLinks(row["iteration_id"], Some(e.iterationExtId), iterations)
  }

  /** Every event of the flush has a row, linked. */
  ghost predicate EventsLinked(events: Dict<TaggedEvent>, eventRows: map<Key, nat>, taskRows: map<Key, nat>,
                               stored: Table, iterations: Table)
  {
    forall k :: k in events.entries ==>
      && k in eventRows && eventRows[k] in stored && [events.entries[k].taskExtId] in taskRows
      && EventLinked(stored[eventRows[k]], events.entries[k], taskRows[[events.entries[k].taskExtId]], iterations)
  }

  /** `iters.get(x)` links the stored Iteration of `ext_id` `x` when there is one, and NULL otherwise. */
  lemma IterationRefLinks(x: Option<string>, refs: set<string>, iters: map<string, nat>, iterations: Table)
    requires IterationsOf(iterations, refs, iters) && (x.Some? ==> x.value in refs)
    ensures IterationLinks(IterationRef(x, iters), x, iterations)
  {
  }

  /** A task row carrying its linked fields is linked. */
  lemma TaskLinkedRow(row: Fields, p: PendingTask, userRows: map<Key, nat>, iters: map<string, nat>,
                      refs: set<string>, users: Table, iterations: Table)
    requires [Text(p.email)] in userRows && UsersStored(userRows, users)
    requires p.iterationExtId.Some? ==> p.iterationExtId.value in refs
    requires IterationsOf(iterations, refs, iters)
    requires Extends(row, Link(p, userRows, iters))
    ensures TaskLinked(row, p, users, iterations)
  {
    var link := Link(p, userRows, iters);
    assert row["user_id"] == link["user_id"] == Num(userRows[[Text(p.email)]]);
    assert row["iteration_id"] == link["iteration_id"];
    IterationRefLinks(p.iterationExtId, refs, iters, iterations);
    forall c | c in p.fields && c != "user_id" && c != "iteration_id"
      ensures c in row && row[c] == p.fields[c]
    {
      assert link[c] == p.fields[c];
    }
  }

  /** Every task row carrying its linked fields: the batch is linked. */
  lemma TasksLinkedRows(batch: Dict<PendingTask>, userRows: map<Key, nat>, iters: map<string, nat>,
                        refs: set<string>, taskRows: map<Key, nat>, tasks: Table, users: Table, iterations: Table)
    requires batch.WellFormed() && UsersKnown(batch, userRows) && UsersStored(userRows, users)
    requires forall k :: k in batch.entries && batch.entries[k].iterationExtId.Some? ==>
               batch.entries[k].iterationExtId.value in refs
    requires IterationsOf(iterations, refs, iters)
    requires taskRows.Keys == batch.entries.Keys
    requires forall k :: k in batch.entries ==>
               taskRows[k] in tasks && Extends(tasks[taskRows[k]], Link(batch.entries[k], userRows, iters))
    ensures TasksLinked(batch, taskRows, tasks, users, iterations)
  {
    forall k | k in batch.entries
      ensures TaskLinked(tasks[taskRows[k]], batch.entries[k], users, iterations)
    {
      TaskLinkedRow(tasks[taskRows[k]], batch.entries[k], userRows, iters, refs, users, iterations);
    }
  }

  /** An event row carrying its new key is linked. */
  lemma EventsLinkedRows(events: Dict<TaggedEvent>, iters: map<string, nat>, refs: set<string>,
                         taskRows: map<Key, nat>, eventRows: map<Key, nat>, stored: Table, iterations: Table)
    requires TasksKnown(events, taskRows) && IterationsOf(iterations, refs, iters)
    requires forall k :: k in events.entries ==> events.entries[k].iterationExtId in refs
    requires forall k :: k in events.entries ==>
               && k in eventRows && eventRows[k] in stored
               && KeyedBy(stored[eventRows[k]], EventKeyFields, NewEventKey(events.entries[k], iters, taskRows))
    ensures EventsLinked(events, eventRows, taskRows, stored, iterations)
  {
    forall k | k in events.entries
      ensures EventLinked(stored[eventRows[k]], events.entries[k], taskRows[[events.entries[k].taskExtId]], iterations)
    {
      var e := events.entries[k];
      var row := stored[eventRows[k]];
      var nk := NewEventKey(e, iters, taskRows);
      assert KeyedBy(row, EventKeyFields, nk);
      assert EventKeyFields[0] == "type" && EventKeyFields[1] == "iteration_id";
      assert EventKeyFields[2] == "occured_on" && EventKeyFields[3] == "task_id";
      assert row["iteration_id"] == nk[1] == IterationRef(Some(e.iterationExtId), iters);
      IterationRefLinks(Some(e.iterationExtId), refs, iters, iterations);
    }
  }


  /** Every key of the users dict has a stored User with that email. */
  ghost predicate UsersHaveRows(users: Dict<Fields>, t: Table)
  {
    forall k :: k in users.entries ==> HasRow(t, ["email"], k)
  }

  /**
   * The users, then the tasks linked to them and to `iters`: the mark is
   * raised by the tasks' rows and, with constructors that keep their
   * fields, every task has a row linked to its User and Iteration.
   */
  method SyncUsersAndTasks(db: Database, mark: Option<int>, batch: Dict<PendingTask>, users: Dict<Fields>,
                           refs: set<string>, iters: map<string, nat>, ctor: Model -> Construct)
    returns (r: Result<Option<int>, SyncError>, taskRows: map<Key, nat>, ghost stamps: seq<Option<int>>)
    requires db.Valid() && batch.WellFormed() && users.WellFormed()
    requires TasksReady(batch, users, refs) && IterationsOf(db.Rows(Iterations), refs, iters)
    modifies db
    ensures db.Valid() && db.syncs == old(db.syncs) && old(db.nextId) <= db.nextId
    ensures forall m :: m != Users && m != Tasks ==> db.Rows(m) == old(db.Rows(m))
    ensures r.Success? ==> r.value == HighWater(mark, stamps) && taskRows.Keys == batch.entries.Keys
    ensures r.Success? && KeepsFields(ctor(Tasks)) && PendingStamped(batch) ==> stamps == PendingStamps(batch)
    ensures r.Success? && KeepsFields(ctor(Users)) && KeepsFields(ctor(Tasks)) && KeyedByEmail(users) ==>
              TasksLinked(batch, taskRows, db.Rows(Tasks), db.Rows(Users), db.Rows(Iterations))
    ensures KeyedByEmail(users) && TasksKeyed(batch) ==> TablesKept(old(db.tables), db.tables)
    ensures r.Success? && KeepsFields(ctor(Users)) && KeyedByEmail(users) ==> UsersHaveRows(users, db.Rows(Users))
  {
    taskRows, stamps := map[], [];
    ghost var tables0 := db.tables;
    var synced := SyncUsers(db, users, ctor(Users));
    ghost var tables1 := db.tables;
    if synced.Failure? {
      return Failure(synced.error), taskRows, stamps;
    }
    var userRows := synced.value;
    ghost var usersTable := db.Rows(Users);
    ghost var iterations1 := db.Rows(Iterations);
    r, taskRows, stamps := SyncLinkedTasks(db, mark, batch, userRows, iters, ctor(Tasks));
    assert db.Rows(Users) == usersTable && db.Rows(Iterations) == iterations1;
    if KeyedByEmail(users) && TasksKeyed(batch) {
      TablesKeptTrans(tables0, tables1, db.tables);
    }
    if r.Success? && KeepsFields(ctor(Users)) && KeepsFields(ctor(Tasks)) && KeyedByEmail(users) {
      TasksLinkedRows(batch, userRows, iters, refs, taskRows, db.Rows(Tasks), usersTable, db.Rows(Iterations));
    }
  }

  /**
   * The rest of a flush once the iterations are found: the users and
   * tasks, then the re-keyed events; every event has a row linked to its
   * task's row and its Iteration.
   */
  method SyncTasksAndEvents(db: Database, mark: Option<int>, batch: Dict<PendingTask>, users: Dict<Fields>,
                            refs: set<string>, iters: map<string, nat>, events: Dict<TaggedEvent>,
                            ctor: Model -> Construct)
    returns (r: Result<Option<int>, SyncError>, ghost stamps: seq<Option<int>>,
             ghost taskRows: map<Key, nat>, ghost eventRows: map<Key, nat>)
    requires db.Valid() && batch.WellFormed() && users.WellFormed() && events.WellFormed()
    requires TasksReady(batch, users, refs) && EventsReady(events, batch, refs)
    requires IterationsOf(db.Rows(Iterations), refs, iters)
    modifies db
    ensures db.Valid() && db.syncs == old(db.syncs) && old(db.nextId) <= db.nextId
    ensures db.Rows(Iterations) == old(db.Rows(Iterations))
    ensures r.Success? ==> r.value == HighWater(mark, stamps)
    ensures r.Success? && KeepsFields(ctor(Tasks)) && PendingStamped(batch) ==> stamps == PendingStamps(batch)
    ensures r.Success? && KeepsFields(ctor(Users)) && KeepsFields(ctor(Tasks)) && KeyedByEmail(users) ==>
              TasksLinked(batch, taskRows, db.Rows(Tasks), db.Rows(Users), db.Rows(Iterations))
    ensures r.Success? && KeepsFields(ctor(Events)) ==>
              EventsLinked(events, eventRows, taskRows, db.Rows(Events), db.Rows(Iterations))
    ensures KeyedByEmail(users) && TasksKeyed(batch) ==> TablesKept(old(db.tables), db.tables)
    ensures r.Success? && KeepsFields(ctor(Users)) && KeyedByEmail(users) ==> UsersHaveRows(users, db.Rows(Users))
  {
    eventRows := map[];
    ghost var tables0 := db.tables;
    var rows;
    r, rows, stamps := SyncUsersAndTasks(db, mark, batch, users, refs, iters, ctor);
    taskRows := rows;
    if r.Failure? {
      return;
    }
    ghost var tables1 := db.tables;
    ghost var users1, tasks1, iterations1 := db.Rows(Users), db.Rows(Tasks), db.Rows(Iterations);
    var stored;
    stored, eventRows := SyncLinkedEvents(db, events, refs, iters, rows, ctor(Events));
    assert db.Rows(Users) == users1 && db.Rows(Tasks) == tasks1 && db.Rows(Iterations) == iterations1;
    if KeyedByEmail(users) && TasksKeyed(batch) {
      TablesKeptTrans(tables0, tables1, db.tables);
    }
    if stored.Failure? {
      return Failure(stored.error), stamps, taskRows, eventRows;
    }
  }

  /**
   * The re-keyed events synced: with a constructor that keeps its fields,
   * every event has a row linked to its task's row and its Iteration.
   */
  method SyncLinkedEvents(db: Database, events: Dict<TaggedEvent>, refs: set<string>, iters: map<string, nat>,
                          taskRows: map<Key, nat>, construct: Construct)
    returns (r: Result<Option<int>, SyncError>, ghost eventRows: map<Key, nat>)
    requires db.Valid() && events.WellFormed() && TasksKnown(events, taskRows)
    requires IterationsOf(db.Rows(Iterations), refs, iters)
    requires forall k :: k in events.entries ==> events.entries[k].iterationExtId in refs
    modifies db
    ensures db.Valid() && db.syncs == old(db.syncs) && old(db.nextId) <= db.nextId
    ensures forall m :: m != Events ==> db.Rows(m) == old(db.Rows(m))
    ensures r.Success? && KeepsFields(construct) ==>
              EventsLinked(events, eventRows, taskRows, db.Rows(Events), db.Rows(Iterations))
    ensures TablesKept(old(db.tables), db.tables)
  {
    r, eventRows := SyncRekeyedEvents(db, events, iters, taskRows, construct);
    if r.Success? && KeepsFields(construct) {
      EventsLinkedRows(events, iters, refs, taskRows, eventRows, db.Rows(Events), db.Rows(Iterations));
    }
  }

  /**
   * `_batch_sync_tasks`: the named iterations are synced, then the users,
   * then the tasks linked to them (the returned mark is the tasks'), then
   * the events re-keyed. With constructors that keep their fields, every
   * task has a row linked to the User of its email and to its Iteration
   * (NULL exactly when none is stored), and every event has a row with its
   * type, time, task row and iteration. Only iteration checkpoints are
   * recorded on the way.
   */
  method BatchSyncTasks(db: Database, mark: Option<int>, batch: Dict<PendingTask>, users: Dict<Fields>,
                        refs: set<string>, events: Dict<TaggedEvent>, iterSource: IterationSource,
                        ctor: Model -> Construct)
    returns (r: Result<Option<int>, SyncError>, ghost stamps: seq<Option<int>>,
             ghost taskRows: map<Key, nat>, ghost eventRows: map<Key, nat>)
    requires db.Valid() && batch.WellFormed() && users.WellFormed() && events.WellFormed()
    requires TasksReady(batch, users, refs) && EventsReady(events, batch, refs)
    modifies db
    ensures db.Valid() && Appended(old(db.syncs), db.syncs, IterationSync) && old(db.nextId) <= db.nextId
    ensures r.Success? ==> r.value == HighWater(mark, stamps)
    ensures r.Success? && KeepsFields(ctor(Tasks)) && PendingStamped(batch) ==> stamps == PendingStamps(batch)
    ensures r.Success? && KeepsFields(ctor(Users)) && KeepsFields(ctor(Tasks)) && KeyedByEmail(users) ==>
              TasksLinked(batch, taskRows, db.Rows(Tasks), db.Rows(Users), db.Rows(Iterations))
    ensures r.Success? && KeepsFields(ctor(Events)) ==>
              EventsLinked(events, eventRows, taskRows, db.Rows(Events), db.Rows(Iterations))
    ensures KeyedByEmail(users) && TasksKeyed(batch) ==> TablesKept(old(db.tables), db.tables)
    ensures r.Success? && KeepsFields(ctor(Users)) && KeyedByEmail(users) ==> UsersHaveRows(users, db.Rows(Users))
  {
    ghost var tables0 := db.tables;
    var found := SyncNamedIterations(db, refs, iterSource, ctor(Iterations));
    if found.Failure? {
      return Failure(found.error), [], map[], map[];
    }
    ghost var tables1 := db.tables;
    r, stamps, taskRows, eventRows := SyncTasksAndEvents(db, mark, batch, users, refs, found.value, events, ctor);
    if KeyedByEmail(users) && TasksKeyed(batch) {
      TablesKeptTrans(tables0, tables1, db.tables);
    }
  }

  // ---------------------------------------------------------------------
  // The gathered dicts are ready for a flush

  /** The iterations named by a task's events include those of its tagged events. */
  lemma {:induction false} TagsRefs(taskExtId: Value, evs: seq<EventIn>)
    ensures forall e :: e in Tags(taskExtId, evs) ==> e.iterationExtId in EventRefs(evs)
    decreases |evs|
  {
    if evs != [] {
      TagsRefs(taskExtId, evs[..|evs| - 1]);
    }
  }

  /** Every tagged event of the records belongs to one of their tasks and names one of their iterations. */
  lemma {:induction false} TaggedFrom(g: seq<TaskIn>)
    ensures forall e :: e in TaggedEvents(g) ==>
              (exists i :: 0 <= i < |g| && g[i].extId == e.taskExtId) && e.iterationExtId in IterationRefs(g)
    decreases |g|
  {
    if g != [] {
      var init, t := g[..|g| - 1], g[|g| - 1];
      TaggedFrom(init);
      TagsRefs(t.extId, t.events);
      forall e | e in TaggedEvents(g)
        ensures exists i :: 0 <= i < |g| && g[i].extId == e.taskExtId
      {
        if e in TaggedEvents(init) {
          var i :| 0 <= i < |init| && init[i].extId == e.taskExtId;
          assert g[i] == init[i];
        } else {
          assert g[|g| - 1].extId == e.taskExtId;
        }
      }
    }
  }

  /** Every iteration a task record names is among the flush's iteration references. */
  lemma {:induction false} TaskRefs(g: seq<TaskIn>)
    ensures forall i :: 0 <= i < |g| && g[i].iterationExtId.Some? ==> g[i].iterationExtId.value in IterationRefs(g)
    decreases |g|
  {
    if g != [] {
      TaskRefs(g[..|g| - 1]);
      assert forall i :: 0 <= i < |g| - 1 ==> g[i] == g[..|g| - 1][i];
    }
  }

  /** Every task record carries `updated_on`. */
  predicate TasksStamped(records: seq<TaskIn>)
  {
    forall t :: t in records ==> "updated_on" in t.rest
  }

  /**
   * The tasks gathered from any records are ready for `_batch_sync_tasks`:
   * each task's user and iteration are in the flush, and the tasks carry
   * the records' stamps.
   */
  lemma TasksReadyOf(g: seq<TaskIn>)
    ensures TasksReady(TaskBatch(g), UserBatch(g), IterationRefs(g))
    ensures TasksStamped(g) ==> PendingStamped(TaskBatch(g))
  {
    var batch := TaskBatch(g);
    TaskRefs(g);
    forall k | k in batch.entries
      ensures [Text(batch.entries[k].email)] in UserBatch(g).entries
      ensures batch.entries[k].iterationExtId.Some? ==> batch.entries[k].iterationExtId.value in IterationRefs(g)
      ensures TasksStamped(g) ==> "updated_on" in batch.entries[k].fields
    {
      GatherLatest(g, TaskKey, PendingOf, k);
      var i := LastWith(g, TaskKey, k);
      assert UserKey(g[i]) in KeyOrder(g, UserKey);
    }
  }

  /** Each user gathered from any records carries its stripped email as its key. */
  lemma UsersKeyedOf(g: seq<TaskIn>)
    ensures KeyedByEmail(UserBatch(g))
  {
    forall k | k in UserBatch(g).entries
      ensures KeyedBy(UserBatch(g).entries[k], ["email"], k)
    {
      GatherFirstEarliest(g, UserKey, UserFields, k);
    }
  }

  /** Each event gathered from any records has its task and its iteration in the flush. */
  lemma EventsReadyOf(g: seq<TaskIn>)
    ensures EventsReady(EventBatch(g), TaskBatch(g), IterationRefs(g))
  {
    var events := EventBatch(g);
    TaggedFrom(g);
    forall k | k in events.entries
      ensures [events.entries[k].taskExtId] in TaskBatch(g).entries && events.entries[k].iterationExtId in IterationRefs(g)
    {
      GatherLatest(TaggedEvents(g), EventKey, Itself, k);
      var e := events.entries[k];
      assert e == TaggedEvents(g)[LastWith(TaggedEvents(g), EventKey, k)];
      var i :| 0 <= i < |g| && g[i].extId == e.taskExtId;
      assert TaskKey(g[i]) in KeyOrder(g, TaskKey);
    }
  }

  // ---------------------------------------------------------------------
  // The records a sync has stored

  /**
   * The stored key `k` of an Event is that of the event `e` whose task is
   * the row `tid`: its type, time and task row, and, unless NULL, an
   * Iteration of `e`'s iteration `ext_id`.
   */
  ghost predicate EventKeyOf(k: Key, e: TaggedEvent, tid: nat, iterations: Table)
  {
    && |k| == 4 && k[0] == e.event.kind && k[2] == e.event.occuredOn && k[3] == Num(tid)
    && (k[1] != Null ==>
          k[1].Num? && k[1].n in iterations && RowKey(iterations, k[1].n, ["ext_id"]) == [Text(e.iterationExtId)])
  }

  /** The event `e` is stored at the Event row `id`, and its task at the Task row `tid`. */
  ghost predicate EventStoredAt(tables: map<Model, Table>, e: TaggedEvent, tid: nat, id: nat)
  {
    && tid in TableOf(tables, Tasks) && RowKey(TableOf(tables, Tasks), tid, ["ext_id"]) == [e.taskExtId]
    && id in TableOf(tables, Events)
    && EventKeyOf(RowKey(TableOf(tables, Events), id, EventKeyFields), e, tid, TableOf(tables, Iterations))
  }

  /** The event `e` has a stored row, linked to a stored row of its task. */
  ghost predicate EventStored(tables: map<Model, Table>, e: TaggedEvent)
  {
    exists tid, id :: EventStoredAt(tables, e, tid, id)
  }

  /**
   * A task record is stored: a User of its stripped email, a Task of its
   * `ext_id`, and a row for each of its events that names an iteration.
   */
  ghost predicate RecordStored(tables: map<Model, Table>, t: TaskIn)
  {
    && HasRow(TableOf(tables, Users), ["email"], UserKey(t))
    && HasRow(TableOf(tables, Tasks), ["ext_id"], TaskKey(t))
    && forall e :: e in Tags(t.extId, t.events) ==> EventStored(tables, e)
  }

  /** Every task record of `rs` is stored. */
  ghost predicate RecordsStored(tables: map<Model, Table>, rs: seq<TaskIn>)
  {
    forall t :: t in rs ==> RecordStored(tables, t)
  }

  /** Constructors that keep the fields they are given, for the Users, Tasks and Events. */
  ghost predicate KeepsAll(ctor: Model -> Construct)
  {
    KeepsFields(ctor(Users)) && KeepsFields(ctor(Tasks)) && KeepsFields(ctor(Events))
  }

  /** A change that keeps every row's key keeps every record stored. */
  lemma RecordsStoredKept(before: map<Model, Table>, after: map<Model, Table>, rs: seq<TaskIn>)
    requires TablesKept(before, after) && RecordsStored(before, rs)
    ensures RecordsStored(after, rs)
  {
    assert KeyColumns(Users) == ["email"] && KeyColumns(Tasks) == ["ext_id"];
    assert KeyColumns(Iterations) == ["ext_id"] && KeyColumns(Events) == EventKeyFields;
    forall t | t in rs
      ensures RecordStored(after, t)
    {
      HasRowKept(TableOf(before, Users), TableOf(after, Users), ["email"], UserKey(t));
      HasRowKept(TableOf(before, Tasks), TableOf(after, Tasks), ["ext_id"], TaskKey(t));
      forall e | e in Tags(t.extId, t.events)
        ensures EventStored(after, e)
      {
        var tid, id :| EventStoredAt(before, e, tid, id);
        var k := RowKey(TableOf(before, Events), id, EventKeyFields);
        assert RowKey(TableOf(after, Tasks), tid, ["ext_id"]) == RowKey(TableOf(before, Tasks), tid, ["ext_id"]);
        assert RowKey(TableOf(after, Events), id, EventKeyFields) == k;
        if k[1] != Null {
          assert RowKey(TableOf(after, Iterations), k[1].n, ["ext_id"])
              == RowKey(TableOf(before, Iterations), k[1].n, ["ext_id"]);
        }
        assert EventStoredAt(after, e, tid, id);
      }
    }
  }

  /** The tasks gathered from any records carry their `ext_id` as their key. */
  lemma TasksKeyedOf(g: seq<TaskIn>)
    ensures TasksKeyed(TaskBatch(g))
  {
    var batch := TaskBatch(g);
    forall k | k in batch.entries
      ensures KeyedBy(batch.entries[k].fields, ["ext_id"], k)
    {
      GatherLatest(g, TaskKey, PendingOf, k);
      var t := g[LastWith(g, TaskKey, k)];
      assert batch.entries[k] == PendingOf(t) && TaskKey(t) == k;
    }
  }

  /** Each record's tagged events are among the records' tagged events. */
  lemma {:induction false} TagsIn(g: seq<TaskIn>)
    ensures forall t, e :: t in g && e in Tags(t.extId, t.events) ==> e in TaggedEvents(g)
    decreases |g|
  {
    if g != [] {
      TagsIn(g[..|g| - 1]);
      assert forall t :: t in g ==> t in g[..|g| - 1] || t == g[|g| - 1];
    }
  }

  /** A linked task row carries its `ext_id` as its key. */
  lemma TaskRowKey(batch: Dict<PendingTask>, taskRows: map<Key, nat>, tasks: Table, users: Table,
                   iterations: Table, k: Key)
    requires TasksLinked(batch, taskRows, tasks, users, iterations) && TasksKeyed(batch) && k in batch.entries
    ensures taskRows[k] in tasks && RowKey(tasks, taskRows[k], ["ext_id"]) == k
  {
    var row := tasks[taskRows[k]];
    assert KeyedBy(batch.entries[k].fields, ["ext_id"], k);
    assert ["ext_id"][0] == "ext_id";
    assert row["ext_id"] == batch.entries[k].fields["ext_id"];
    KeyOfKeyed(row, ["ext_id"], k);
  }

  /** A linked event row carries the key of its event. */
  lemma EventRowKey(row: Fields, e: TaggedEvent, tid: nat, iterations: Table)
    requires EventLinked(row, e, tid, iterations)
    ensures EventKeyOf(KeyOf(row, EventKeyFields), e, tid, iterations)
  {
    KeyOfColumns(row, EventKeyFields);
    var v := row["iteration_id"];
    if v != Null {
      KeyOfColumns(iterations[v.n], ["ext_id"]);
    }
  }

  /** An event of a flush has a row linked to its task's row. */
  lemma EventOfFlushStored(tables: map<Model, Table>, g: seq<TaskIn>, taskRows: map<Key, nat>,
                           eventRows: map<Key, nat>, e: TaggedEvent)
    requires TasksLinked(TaskBatch(g), taskRows, TableOf(tables, Tasks), TableOf(tables, Users),
                         TableOf(tables, Iterations))
    requires EventsLinked(EventBatch(g), eventRows, taskRows, TableOf(tables, Events), TableOf(tables, Iterations))
    requires TasksKeyed(TaskBatch(g)) && EventsReady(EventBatch(g), TaskBatch(g), IterationRefs(g))
    requires e in TaggedEvents(g)
    ensures EventStored(tables, e)
  {
    var k := EventKey(e);
    var j :| 0 <= j < |TaggedEvents(g)| && TaggedEvents(g)[j] == e;
    assert EventKey(TaggedEvents(g)[j]) in KeyOrder(TaggedEvents(g), EventKey);
    GatherLatest(TaggedEvents(g), EventKey, Itself, k);
    var e' := EventBatch(g).entries[k];
    assert EventKey(e') == k;
    var tid, id := taskRows[[e.taskExtId]], eventRows[k];
    TaskRowKey(TaskBatch(g), taskRows, TableOf(tables, Tasks), TableOf(tables, Users), TableOf(tables, Iterations),
               [e.taskExtId]);
    EventRowKey(TableOf(tables, Events)[id], e', tid, TableOf(tables, Iterations));
    assert EventStoredAt(tables, e, tid, id);
  }

  /**
   * One flush stores its records: with the users, tasks and events linked
   * as `BatchSyncTasks` promises, every record of the flush has its User,
   * its Task and its events' rows.
   */
  lemma FlushStored(tables: map<Model, Table>, g: seq<TaskIn>, taskRows: map<Key, nat>, eventRows: map<Key, nat>)
    requires TasksLinked(TaskBatch(g), taskRows, TableOf(tables, Tasks), TableOf(tables, Users),
                         TableOf(tables, Iterations))
    requires EventsLinked(EventBatch(g), eventRows, taskRows, TableOf(tables, Events), TableOf(tables, Iterations))
    requires UsersHaveRows(UserBatch(g), TableOf(tables, Users))
    ensures RecordsStored(tables, g)
  {
    TasksKeyedOf(g);
    EventsReadyOf(g);
    TagsIn(g);
    forall t | t in g
      ensures RecordStored(tables, t)
    {
      var i :| 0 <= i < |g| && g[i] == t;
      assert UserKey(g[i]) in KeyOrder(g, UserKey);
      assert TaskKey(g[i]) in KeyOrder(g, TaskKey);
      TaskRowKey(TaskBatch(g), taskRows, TableOf(tables, Tasks), TableOf(tables, Users), TableOf(tables, Iterations),
                 TaskKey(t));
      forall e | e in Tags(t.extId, t.events)
        ensures EventStored(tables, e)
      {
        EventOfFlushStored(tables, g, taskRows, eventRows, e);
      }
    }
  }

  // ---------------------------------------------------------------------
  // sync_tasks

  /** Appending nothing appends only checkpoints of any kind. */
  lemma AppendedNone(syncs: seq<SyncRow>, kind: SyncType)
    ensures Appended(syncs, syncs, kind)
  {
    assert syncs[..|syncs|] == syncs;
  }

  /** Checkpoints appended after checkpoints appended are appended. */
  lemma AppendedTrans(a: seq<SyncRow>, b: seq<SyncRow>, c: seq<SyncRow>, kind: SyncType)
    requires Appended(a, b, kind) && Appended(b, c, kind)
    ensures Appended(a, c, kind)
  {
    assert c[..|a|] == c[..|b|][..|a|];
  }

  /** The stamps the flushes of `gs` consume when each task row carries its record's `updated_on`. */
  function TaskFlushStamps(gs: seq<seq<TaskIn>>): seq<Option<int>>
  {
    StampsOfFlushes(gs, TaskStamps)
  }

  /** The stamps one flush of task records consumes when each task row carries its record's `updated_on`. */
  function TaskStamps(g: seq<TaskIn>): seq<Option<int>>
  {
    PendingStamps(TaskBatch(g))
  }

  /** One more flush appends its own stamps. */
  lemma TaskFlushStampsSnoc(gs: seq<seq<TaskIn>>, g: seq<TaskIn>)
    ensures TaskFlushStamps(gs + [g]) == TaskFlushStamps(gs) + PendingStamps(TaskBatch(g))
  {
    StampsOfFlushesSnoc(gs, g, TaskStamps);
  }

  /** The four dicts of a flush are those gathered from the records `g`. */
  predicate Gathered(batch: Dict<PendingTask>, users: Dict<Fields>, events: Dict<TaggedEvent>, refs: set<string>,
                     g: seq<TaskIn>)
  {
    batch == TaskBatch(g) && users == UserBatch(g) && events == EventBatch(g) && refs == IterationRefs(g)
  }

  /** One record through the loop of `sync_tasks`: the dicts gather it; the cut follows the number of tasks. */
  method GatherNext(records: seq<TaskIn>, i: nat, ghost flushed: seq<seq<TaskIn>>, ghost pending: seq<TaskIn>,
                    batch: Dict<PendingTask>, users: Dict<Fields>, events: Dict<TaggedEvent>, refs: set<string>)
    returns (batch': Dict<PendingTask>, users': Dict<Fields>, events': Dict<TaggedEvent>, refs': set<string>,
             ghost pending': seq<TaskIn>)
    requires i < |records| && Chunk(records[..i], TaskKey) == Chunks(flushed, pending)
    requires Gathered(batch, users, events, refs, pending)
    ensures pending' == pending + [records[i]] && Gathered(batch', users', events', refs', pending')
    ensures Chunk(records[..i + 1], TaskKey) ==
              if batch'.Size() == SyncBatch then Chunks(flushed + [pending'], []) else Chunks(flushed, pending')
  {
    ChunkNext(records, i, TaskKey, flushed, pending);
    batch', users', events', refs' := GatherTask(batch, users, events, refs, pending, records[i]);
    pending' := pending + [records[i]];
  }

  /**
   * One flush of `sync_tasks`: `_batch_sync_tasks(mark, ...)` on the dicts
   * of the records `g`, threading the mark and the stamps consumed since
   * `since`.
   */
  method FlushTasks(db: Database, ghost since: Option<int>, mark: Option<int>, batch: Dict<PendingTask>,
                    users: Dict<Fields>, events: Dict<TaggedEvent>, refs: set<string>, ghost g: seq<TaskIn>,
                    iterSource: IterationSource, ctor: Model -> Construct,
                    ghost flushed: seq<seq<TaskIn>>, ghost consumed: seq<Option<int>>)
    returns (r: Result<Option<int>, SyncError>, ghost flushed': seq<seq<TaskIn>>, ghost consumed': seq<Option<int>>)
    requires db.Valid() && mark == HighWater(since, consumed)
    requires Gathered(batch, users, events, refs, g)
    modifies db
    ensures db.Valid() && Appended(old(db.syncs), db.syncs, IterationSync) && old(db.nextId) <= db.nextId
    ensures flushed' == flushed + [g]
    ensures r.Success? ==> r.value == HighWater(since, consumed')
    ensures r.Success? && KeepsFields(ctor(Tasks)) && TasksStamped(g) && consumed == TaskFlushStamps(flushed) ==>
              consumed' == TaskFlushStamps(flushed')
    ensures TablesKept(old(db.tables), db.tables)
    ensures r.Success? && KeepsAll(ctor) ==> RecordsStored(db.tables, g)
    ensures r.Success? && KeepsAll(ctor) && RecordsStored(old(db.tables), Flatten(flushed)) ==>
              RecordsStored(db.tables, Flatten(flushed'))
  {
    TasksReadyOf(g);
    EventsReadyOf(g);
    UsersKeyedOf(g);
    TasksKeyedOf(g);
    ghost var tables0 := db.tables;
    ghost var stamps, taskRows, eventRows;
    r, stamps, taskRows, eventRows := BatchSyncTasks(db, mark, batch, users, refs, events, iterSource, ctor);
    HighWaterConcat(since, consumed, stamps);
    TaskFlushStampsSnoc(flushed, g);
    flushed', consumed' := flushed + [g], consumed + stamps;
    if r.Success? && KeepsAll(ctor) {
      FlushStored(db.tables, g, taskRows, eventRows);
      FlattenSnoc(flushed, g);
      if RecordsStored(tables0, Flatten(flushed)) {
        RecordsStoredKept(tables0, db.tables, Flatten(flushed));
      }
    }
  }

  /**
   * The state of the loop of `sync_tasks` after `i` records: the cut so
   * far, the dicts of the pending records, the mark threaded from `since`
   * through the stamps consumed, which are the records' own when
   * `stamped`.
   */
  ghost predicate TaskLoop(records: seq<TaskIn>, i: nat, since: Option<int>, stamped: bool, mark: Option<int>,
                           batch: Dict<PendingTask>, users: Dict<Fields>, events: Dict<TaggedEvent>, refs: set<string>,
                           pending: seq<TaskIn>, flushed: seq<seq<TaskIn>>, consumed: seq<Option<int>>)
  {
    && i <= |records|
    && Chunk(records[..i], TaskKey) == Chunks(flushed, pending)
    && (forall t :: t in pending ==> t in records)
    && Gathered(batch, users, events, refs, pending)
    && mark == HighWater(since, consumed)
    && (stamped ==> consumed == TaskFlushStamps(flushed))
  }

  /** A full batch in the loop of `sync_tasks`: flush it and start afresh. */
  method FlushFull(db: Database, since: Option<int>, records: seq<TaskIn>, i: nat, iterSource: IterationSource,
                   ctor: Model -> Construct, ghost stamped: bool, mark: Option<int>,
                   batch: Dict<PendingTask>, users: Dict<Fields>, events: Dict<TaggedEvent>, refs: set<string>,
                   ghost pending: seq<TaskIn>, ghost flushed: seq<seq<TaskIn>>, ghost consumed: seq<Option<int>>)
    returns (r: Result<Option<int>, SyncError>, ghost flushed': seq<seq<TaskIn>>, ghost consumed': seq<Option<int>>)
    requires db.Valid() && i < |records| && (stamped ==> KeepsFields(ctor(Tasks)) && TasksStamped(pending))
    requires Chunk(records[..i + 1], TaskKey) == Chunks(flushed + [pending], [])
    requires Gathered(batch, users, events, refs, pending) && mark == HighWater(since, consumed)
    requires stamped ==> consumed == TaskFlushStamps(flushed)
    modifies db
    ensures db.Valid() && Appended(old(db.syncs), db.syncs, IterationSync) && old(db.nextId) <= db.nextId
    ensures r.Success? ==>
              TaskLoop(records, i + 1, since, stamped, r.value, EmptyDict(), EmptyDict(), EmptyDict(), {}, [],
                       flushed', consumed')
    ensures r.Failure? ==> flushed' == flushed + [pending]
    ensures TablesKept(old(db.tables), db.tables)
    ensures r.Success? && KeepsAll(ctor) && RecordsStored(old(db.tables), Flatten(flushed)) ==>
              RecordsStored(db.tables, Flatten(flushed'))
  {
    r, flushed', consumed' := FlushTasks(db, since, mark, batch, users, events, refs, pending, iterSource, ctor,
                                         flushed, consumed);
  }

  /** One turn of the loop of `sync_tasks`: gather the `i`-th record, and flush when the batch is full. */
  method TaskStep(db: Database, since: Option<int>, records: seq<TaskIn>, i: nat, iterSource: IterationSource,
                  ctor: Model -> Construct, ghost stamped: bool, mark: Option<int>,
                  batch: Dict<PendingTask>, users: Dict<Fields>, events: Dict<TaggedEvent>, refs: set<string>,
                  ghost pending: seq<TaskIn>, ghost flushed: seq<seq<TaskIn>>, ghost consumed: seq<Option<int>>)
    returns (r: Result<Option<int>, SyncError>,
             batch': Dict<PendingTask>, users': Dict<Fields>, events': Dict<TaggedEvent>, refs': set<string>,
             ghost pending': seq<TaskIn>, ghost flushed': seq<seq<TaskIn>>, ghost consumed': seq<Option<int>>)
    requires db.Valid() && i < |records| && (stamped ==> KeepsFields(ctor(Tasks)) && TasksStamped(records))
    requires TaskLoop(records, i, since, stamped, mark, batch, users, events, refs, pending, flushed, consumed)
    modifies db
    ensures db.Valid() && Appended(old(db.syncs), db.syncs, IterationSync) && old(db.nextId) <= db.nextId
    ensures r.Success? ==>
              TaskLoop(records, i + 1, since, stamped, r.value, batch', users', events', refs', pending', flushed', consumed')
    ensures r.Failure? ==> flushed' == flushed + [pending']
    ensures TablesKept(old(db.tables), db.tables)
    ensures r.Success? && KeepsAll(ctor) && RecordsStored(old(db.tables), Flatten(flushed)) ==>
              RecordsStored(db.tables, Flatten(flushed'))
  {
    batch', users', events', refs', pending' := GatherNext(records, i, flushed, pending, batch, users, events, refs);
    if batch'.Size() != SyncBatch {
      AppendedNone(db.syncs, IterationSync);
      TablesKeptRefl(db.tables);
      return Success(mark), batch', users', events', refs', pending', flushed, consumed;
    }
    assert stamped ==> TasksStamped(pending');
    r, flushed', consumed' := FlushFull(db, since, records, i, iterSource, ctor, stamped, mark,
                                        batch', users', events', refs', pending', flushed, consumed);
    if r.Success? {
      batch', users', events', refs', pending' := EmptyDict(), EmptyDict(), EmptyDict(), {}, [];
    }
  }

  /** After the loop of `sync_tasks`: flush the remaining records, if any. */
  method FlushLast(db: Database, since: Option<int>, records: seq<TaskIn>, iterSource: IterationSource,
                   ctor: Model -> Construct, ghost stamped: bool, mark: Option<int>,
                   batch: Dict<PendingTask>, users: Dict<Fields>, events: Dict<TaggedEvent>, refs: set<string>,
                   ghost pending: seq<TaskIn>, ghost flushed: seq<seq<TaskIn>>, ghost consumed: seq<Option<int>>)
    returns (r: Result<Option<int>, SyncError>, ghost flushed': seq<seq<TaskIn>>, ghost consumed': seq<Option<int>>)
    requires db.Valid() && (stamped ==> KeepsFields(ctor(Tasks)) && TasksStamped(records))
    requires TaskLoop(records, |records|, since, stamped, mark, batch, users, events, refs, pending, flushed, consumed)
    modifies db
    ensures db.Valid() && Appended(old(db.syncs), db.syncs, IterationSync) && old(db.nextId) <= db.nextId
    ensures r.Success? ==> r.value == HighWater(since, consumed') && flushed' == Flushes(records, TaskKey)
    ensures r.Success? && stamped ==> consumed' == TaskFlushStamps(flushed')
    ensures TablesKept(old(db.tables), db.tables)
    ensures r.Success? && KeepsAll(ctor) && RecordsStored(old(db.tables), Flatten(flushed)) ==>
              RecordsStored(db.tables, records)
  {
    assert records[..|records|] == records;
    FlushesOfChunk(records, TaskKey, flushed, pending);
    FlushesCover(records, TaskKey);
    if batch.Size() == 0 {
      AppendedNone(db.syncs, IterationSync);
      TablesKeptRefl(db.tables);
      return Success(mark), flushed, consumed;
    }
    r, flushed', consumed' := FlushTasks(db, since, mark, batch, users, events, refs, pending, iterSource, ctor,
                                         flushed, consumed);
  }

  /**
   * The `for` loop of `sync_tasks`: every record gathered, each full
   * batch flushed, the mark threaded through the flushes from `since`.
   * It ends with the loop state after the last record.
   */
  method GatherAll(db: Database, since: Option<int>, records: seq<TaskIn>, iterSource: IterationSource,
                   ctor: Model -> Construct, ghost stamped: bool)
    returns (r: Result<Option<int>, SyncError>,
             batch: Dict<PendingTask>, users: Dict<Fields>, events: Dict<TaggedEvent>, refs: set<string>,
             ghost pending: seq<TaskIn>, ghost flushed: seq<seq<TaskIn>>, ghost consumed: seq<Option<int>>)
    requires db.Valid() && (stamped ==> KeepsFields(ctor(Tasks)) && TasksStamped(records))
    modifies db
    ensures db.Valid() && Appended(old(db.syncs), db.syncs, IterationSync) && old(db.nextId) <= db.nextId
    ensures r.Success? ==>
              TaskLoop(records, |records|, since, stamped, r.value, batch, users, events, refs, pending, flushed, consumed)
    ensures TablesKept(old(db.tables), db.tables)
    ensures r.Success? && KeepsAll(ctor) ==> RecordsStored(db.tables, Flatten(flushed))
  {
    var mark := since;
    batch, users, events, refs := EmptyDict(), EmptyDict(), EmptyDict(), {};
    pending, flushed, consumed := [], [], [];
    assert records[..0] == [];
    AppendedNone(db.syncs, IterationSync);
    TablesKeptRefl(db.tables);
    var i := 0;
    while i < |records|
      invariant db.Valid() && Appended(old(db.syncs), db.syncs, IterationSync) && old(db.nextId) <= db.nextId
      invariant TaskLoop(records, i, since, stamped, mark, batch, users, events, refs, pending, flushed, consumed)
      invariant TablesKept(old(db.tables), db.tables)
      invariant KeepsAll(ctor) ==> RecordsStored(db.tables, Flatten(flushed))
    {
      ghost var syncs, tables := db.syncs, db.tables;
      var res;
      res, batch, users, events, refs, pending, flushed, consumed :=
        TaskStep(db, since, records, i, iterSource, ctor, stamped, mark, batch, users, events, refs,
                 pending, flushed, consumed);
      AppendedTrans(old(db.syncs), syncs, db.syncs, IterationSync);
      TablesKeptTrans(old(db.tables), tables, db.tables);
      if res.Failure? {
        return Failure(res.error), batch, users, events, refs, pending, flushed, consumed;
      }
      mark := res.value;
      i := i + 1;
    }
    r := Success(mark);
  }

  /**
   * The loop of `sync_tasks` and the flush after it: the records,
   * gathered into the dicts of `GatherTask` and flushed in the groups
   * `Flushes` cuts (by the number of distinct tasks), the mark threaded
   * through the flushes from `since`. `consumed` is the stamps the
   * flushes read, in order. With constructors that keep their fields,
   * every record is stored.
   */
  method FlushAllTasks(db: Database, since: Option<int>, records: seq<TaskIn>, iterSource: IterationSource,
                       ctor: Model -> Construct)
    returns (r: Result<Option<int>, SyncError>, ghost flushed: seq<seq<TaskIn>>, ghost consumed: seq<Option<int>>)
    requires db.Valid()
    modifies db
    ensures db.Valid() && Appended(old(db.syncs), db.syncs, IterationSync) && old(db.nextId) <= db.nextId
    ensures r.Success? ==> r.value == HighWater(since, consumed) && flushed == Flushes(records, TaskKey)
    ensures r.Success? && KeepsFields(ctor(Tasks)) && TasksStamped(records) ==> consumed == TaskFlushStamps(flushed)
    ensures TablesKept(old(db.tables), db.tables)
    ensures r.Success? && KeepsAll(ctor) ==> RecordsStored(db.tables, records)
  {
    ghost var stamped := KeepsFields(ctor(Tasks)) && TasksStamped(records);
    var res, batch, users, events, refs;
    ghost var pending;
    res, batch, users, events, refs, pending, flushed, consumed := GatherAll(db, since, records, iterSource, ctor, stamped);
    if res.Failure? {
      return Failure(res.error), flushed, consumed;
    }
    ghost var syncs, tables := db.syncs, db.tables;
    r, flushed, consumed := FlushLast(db, since, records, iterSource, ctor, stamped, res.value, batch, users, events,
                                      refs, pending, flushed, consumed);
    AppendedTrans(old(db.syncs), syncs, db.syncs, IterationSync);
    TablesKeptTrans(old(db.tables), tables, db.tables);
  }

  /**
   * `sync_tasks(since, ids)`: the connector's task records since `since`
   * (by default since the last task checkpoint) are flushed through
   * `_batch_sync_tasks` in the groups `Flushes` cuts, the mark threaded
   * through them, and the final mark recorded as a task checkpoint after
   * the iteration checkpoints the flushes record. `consumed` is the stamps
   * the flushes read, in order; with a Task constructor that keeps its
   * fields and records that carry `updated_on`, they are the records' own
   * (`TaskFlushStamps`). A failing flush stops the sync and records no
   * task checkpoint.
   */
  method SyncTasks(db: Database, since: Arg<Option<int>>, ids: Option<set<string>>, source: TaskSource,
                   iterSource: IterationSource, ctor: Model -> Construct)
    returns (r: Result<Option<SyncRow>, SyncError>, ghost flushed: seq<seq<TaskIn>>,
             ghost consumed: seq<Option<int>>)
    requires db.Valid()
    modifies db
    ensures db.Valid() && old(db.nextId) <= db.nextId
    ensures r.Failure? || r.value.None? ==> Appended(old(db.syncs), db.syncs, IterationSync)
    ensures r.Success? ==>
              var since0 := SinceOf(since, old(db.syncs), SyncType.TaskSync);
              var mark := HighWater(since0, consumed);
              && flushed == Flushes(source(since0, ids), TaskKey)
              && r.value == (if mark.Some? then Some(SyncRow(mark.value, SyncType.TaskSync)) else None)
    ensures r.Success? && r.value.Some? ==>
              && |db.syncs| > 0 && db.syncs[|db.syncs| - 1] == r.value.value
              && Appended(old(db.syncs), db.syncs[..|db.syncs| - 1], IterationSync)
    ensures r.Success? && KeepsFields(ctor(Tasks))
              && TasksStamped(source(SinceOf(since, old(db.syncs), SyncType.TaskSync), ids)) ==>
              consumed == TaskFlushStamps(flushed)
    ensures TablesKept(old(db.tables), db.tables)
    ensures r.Success? && KeepsAll(ctor) ==>
              RecordsStored(db.tables, source(SinceOf(since, old(db.syncs), SyncType.TaskSync), ids))
  {
    var since0 := SinceOf(since, db.syncs, SyncType.TaskSync);
    var records := source(since0, ids);
    var res;
    res, flushed, consumed := FlushAllTasks(db, since0, records, iterSource, ctor);
    if res.Failure? {
      return Failure(res.error), flushed, consumed;
    }
    ghost var syncs := db.syncs;
    var row := RecordSync(db, SyncType.TaskSync, res.value);
    if row.Some? {
      assert db.syncs[..|db.syncs| - 1] == syncs;
    }
    r := Success(row);
  }

  // ---------------------------------------------------------------------
  // sync

  /**
   * The mark of a full sync: the latest of the checkpoints the iteration
   * and task syncs recorded, absent when they recorded none.
   */
  function FullMark(iterationRow: Option<SyncRow>, taskRow: Option<SyncRow>): (r: Option<int>)
    ensures r.None? <==> iterationRow.None? && taskRow.None?
    ensures iterationRow.Some? ==> r.Some? && iterationRow.value.lastSeenUpdate <= r.value
    ensures taskRow.Some? ==> r.Some? && taskRow.value.lastSeenUpdate <= r.value
    ensures r.Some? ==>
              (iterationRow.Some? && r.value == iterationRow.value.lastSeenUpdate) ||
              (taskRow.Some? && r.value == taskRow.value.lastSeenUpdate)
  {
    match (iterationRow, taskRow)
    case (None, None) => None
    case (Some(a), None) => Some(a.lastSeenUpdate)
    case (None, Some(b)) => Some(b.lastSeenUpdate)
    case (Some(a), Some(b)) =>
      Some(if a.lastSeenUpdate < b.lastSeenUpdate then b.lastSeenUpdate else a.lastSeenUpdate)
  }

  /** An iteration checkpoint leaves the `since` of the task sync as it was. */
  lemma TaskSinceKept(since: Arg<Option<int>>, syncs: seq<SyncRow>, row: Option<SyncRow>)
    requires row.Some? ==> row.value.kind == IterationSync
    ensures SinceOf(since, syncs + (if row.Some? then [row.value] else []), SyncType.TaskSync)
         == SinceOf(since, syncs, SyncType.TaskSync)
  {
    LastSeenOthers(syncs, if row.Some? then [row.value] else [], SyncType.TaskSync);
  }

  /**
   * Where the checkpoints of a full sync land: the iteration checkpoint
   * first, the task checkpoint just before the full one.
   */
  lemma CheckpointsAt(s0: seq<SyncRow>, s1: seq<SyncRow>, s2: seq<SyncRow>, s3: seq<SyncRow>,
                      iterationRow: Option<SyncRow>, taskRow: Option<SyncRow>, full: Option<SyncRow>)
    requires s1 == s0 + (if iterationRow.Some? then [iterationRow.value] else [])
    requires taskRow.None? ==> Appended(s1, s2, IterationSync)
    requires taskRow.Some? ==> |s2| > 0 && s2[|s2| - 1] == taskRow.value && Appended(s1, s2[..|s2| - 1], IterationSync)
    requires s3 == s2 + (if full.Some? then [full.value] else [])
    requires taskRow.Some? ==> full.Some?
    ensures iterationRow.Some? ==> |s0| < |s3| && s3[|s0|] == iterationRow.value
    ensures taskRow.Some? ==> |s0| + 2 <= |s3| && s3[|s3| - 2] == taskRow.value
  {
    if iterationRow.Some? {
      if taskRow.Some? {
        assert s2[..|s2| - 1][..|s1|] == s1;
      }
      assert s3[|s0|] == s2[|s0|] == s1[|s0|];
    }
  }

  /**
   * The two syncs of `sync(since)`: `sync_iterations(since)`, then
   * `sync_tasks(since)`, each returning the checkpoint it recorded. The
   * task sync reads its own `since` from the log as it was before the
   * iteration checkpoint, which is of another kind. A failing sync stops
   * it.
   */
  method SyncIterationsAndTasks(db: Database, since: Arg<Option<int>>, iterSource: IterationSource,
                                taskSource: TaskSource, ctor: Model -> Construct)
    returns (failure: Option<SyncError>, iterationRow: Option<SyncRow>, taskRow: Option<SyncRow>,
             ghost iterConsumed: seq<Option<int>>, ghost taskConsumed: seq<Option<int>>)
    requires db.Valid()
    modifies db
    ensures db.Valid() && old(db.nextId) <= db.nextId
    ensures failure.None? ==>
              var mark := HighWater(SinceOf(since, old(db.syncs), IterationSync), iterConsumed);
              iterationRow == (if mark.Some? then Some(SyncRow(mark.value, IterationSync)) else None)
    ensures failure.None? ==>
              var mark := HighWater(SinceOf(since, old(db.syncs), SyncType.TaskSync), taskConsumed);
              taskRow == (if mark.Some? then Some(SyncRow(mark.value, SyncType.TaskSync)) else None)
    ensures failure.None? && KeepsFields(ctor(Iterations))
              && IterationsStamped(iterSource(SinceOf(since, old(db.syncs), IterationSync), None)) ==>
              iterConsumed == IterationFlushStamps(
                Flushes(iterSource(SinceOf(since, old(db.syncs), IterationSync), None), IterationKey))
    ensures failure.None? && KeepsFields(ctor(Tasks))
              && TasksStamped(taskSource(SinceOf(since, old(db.syncs), SyncType.TaskSync), None)) ==>
              taskConsumed == TaskFlushStamps(
                Flushes(taskSource(SinceOf(since, old(db.syncs), SyncType.TaskSync), None), TaskKey))
    ensures failure.None? ==>
              var s1 := old(db.syncs) + (if iterationRow.Some? then [iterationRow.value] else []);
              && (taskRow.None? ==> Appended(s1, db.syncs, IterationSync))
              && (taskRow.Some? ==>
                    |db.syncs| > 0 && db.syncs[|db.syncs| - 1] == taskRow.value
                    && Appended(s1, db.syncs[..|db.syncs| - 1], IterationSync))
    ensures TablesKept(old(db.tables), db.tables)
    ensures failure.None? && KeepsFields(ctor(Iterations)) ==>
              IterationsStored(db.Rows(Iterations), iterSource(SinceOf(since, old(db.syncs), IterationSync), None))
    ensures failure.None? && KeepsAll(ctor) ==>
              RecordsStored(db.tables, taskSource(SinceOf(since, old(db.syncs), SyncType.TaskSync), None))
  {
    iterationRow, taskRow, taskConsumed := None, None, [];
    ghost var tables0 := db.tables;
    var iterations, _, consumed := SyncIterations(db, since, None, iterSource, ctor(Iterations));
    iterConsumed := consumed;
    TablesKeptBy(tables0, db, Iterations);
    if iterations.Failure? {
      return Some(iterations.error), iterationRow, taskRow, iterConsumed, taskConsumed;
    }
    iterationRow := iterations.value;
    ghost var tables1, iterations1 := db.tables, db.Rows(Iterations);
    TaskSinceKept(since, old(db.syncs), iterationRow);
    var tasks, _, consumed' := SyncTasks(db, since, None, taskSource, iterSource, ctor);
    taskConsumed := consumed';
    TablesKeptTrans(tables0, tables1, db.tables);
    if tasks.Failure? {
      return Some(tasks.error), iterationRow, taskRow, iterConsumed, taskConsumed;
    }
    taskRow := tasks.value;
    failure := None;
    if KeepsFields(ctor(Iterations)) {
      assert KeyColumns(Iterations) == ["ext_id"];
      IterationsStoredKept(iterations1, db.Rows(Iterations),
                           iterSource(SinceOf(since, old(db.syncs), IterationSync), None));
    }
  }

  /**
   * `sync(since)`: `sync_iterations(since)`, then `sync_tasks(since)`,
   * then a full checkpoint at the latest mark they recorded (none when
   * neither recorded one). A failing sync stops it before the full
   * checkpoint. Each returned row is the checkpoint its sync recorded at
   * the mark it reached from its own `since`: the iteration checkpoint
   * first in the log, the task checkpoint just before the full one.
   */
  method SyncAll(db: Database, since: Arg<Option<int>>, iterSource: IterationSource, taskSource: TaskSource,
                 ctor: Model -> Construct)
    returns (r: Result<Option<SyncRow>, SyncError>, iterationRow: Option<SyncRow>, taskRow: Option<SyncRow>,
             ghost iterConsumed: seq<Option<int>>, ghost taskConsumed: seq<Option<int>>)
    requires db.Valid()
    modifies db
    ensures db.Valid() && old(db.nextId) <= db.nextId
    ensures r.Success? ==>
              var mark := FullMark(iterationRow, taskRow);
              && r.value == (if mark.Some? then Some(SyncRow(mark.value, Full)) else None)
              && (mark.Some? ==> |db.syncs| > 0 && db.syncs[|db.syncs| - 1] == r.value.value)
    ensures r.Success? && iterationRow.Some? ==> iterationRow.value.kind == IterationSync
    ensures r.Success? && taskRow.Some? ==> taskRow.value.kind == SyncType.TaskSync
    ensures r.Success? ==>
              var mark := HighWater(SinceOf(since, old(db.syncs), IterationSync), iterConsumed);
              iterationRow == (if mark.Some? then Some(SyncRow(mark.value, IterationSync)) else None)
    ensures r.Success? ==>
              var mark := HighWater(SinceOf(since, old(db.syncs), SyncType.TaskSync), taskConsumed);
              taskRow == (if mark.Some? then Some(SyncRow(mark.value, SyncType.TaskSync)) else None)
    ensures r.Success? && KeepsFields(ctor(Iterations))
              && IterationsStamped(iterSource(SinceOf(since, old(db.syncs), IterationSync), None)) ==>
              iterConsumed == IterationFlushStamps(
                Flushes(iterSource(SinceOf(since, old(db.syncs), IterationSync), None), IterationKey))
    ensures r.Success? && KeepsFields(ctor(Tasks))
              && TasksStamped(taskSource(SinceOf(since, old(db.syncs), SyncType.TaskSync), None)) ==>
              taskConsumed == TaskFlushStamps(
                Flushes(taskSource(SinceOf(since, old(db.syncs), SyncType.TaskSync), None), TaskKey))
    ensures r.Success? && iterationRow.Some? ==>
              |old(db.syncs)| < |db.syncs| && db.syncs[|old(db.syncs)|] == iterationRow.value
    ensures r.Success? && taskRow.Some? ==>
              |old(db.syncs)| + 2 <= |db.syncs| && db.syncs[|db.syncs| - 2] == taskRow.value
    ensures TablesKept(old(db.tables), db.tables)
    ensures r.Success? && KeepsFields(ctor(Iterations)) ==>
              IterationsStored(db.Rows(Iterations), iterSource(SinceOf(since, old(db.syncs), IterationSync), None))
    ensures r.Success? && KeepsAll(ctor) ==>
              RecordsStored(db.tables, taskSource(SinceOf(since, old(db.syncs), SyncType.TaskSync), None))
  {
    var failure;
    failure, iterationRow, taskRow, iterConsumed, taskConsumed :=
      SyncIterationsAndTasks(db, since, iterSource, taskSource, ctor);
    if failure.Some? {
      return Failure(failure.value), iterationRow, taskRow, iterConsumed, taskConsumed;
    }
    ghost var syncs2 := db.syncs;
    var row := RecordSync(db, Full, FullMark(iterationRow, taskRow));
    CheckpointsAt(old(db.syncs), old(db.syncs) + (if iterationRow.Some? then [iterationRow.value] else []),
                  syncs2, db.syncs, iterationRow, taskRow, row);
    r := Success(row);
  }

  // ---------------------------------------------------------------------
  // The users' emails

  /** A task record whose user's email arrives with a trailing blank. */
  function PaddedTask(): TaskIn
  {
    TaskIn(Text("T-1"), map[], [], None, "a@x.com ", map[])
  }

  /** The users dict as written for that record: the stripped email as key, the email as sent in the fields. */
  lemma PaddedUsers()
    ensures UserBatchAsWritten([PaddedTask()]) == Dict([[Text("a@x.com")]], map[[Text("a@x.com")] := PaddedUser()])
  {
    var stripped := "a@x.com";
    assert forall i :: 0 <= i < |stripped| ==> !Blank(stripped[i]);
    assert "a@x.com " == stripped + [' '];
    assert Strip("a@x.com ") == stripped;
  }

  /** The fields of the padded user as sent. */
  function PaddedUser(): Fields
  {
    map["email" := Text("a@x.com ")]
  }

  /** The constructor that stores exactly the fields it is given. */
  function Keep(f: Fields): Fields
  {
    f
  }

  /** The first sync of the padded user creates its row. */
  lemma PaddedFirstSync()
    ensures var d := Dict([[Text("a@x.com")]], map[[Text("a@x.com")] := PaddedUser()]);
            Upsert(map[], 0, d, ["email"], Keep) == Upserted(map[0 := PaddedUser()], 1, map[[Text("a@x.com")] := 0])
  {
  }

  /** The second sync of the padded user finds no row under the stripped email and creates another. */
  lemma PaddedSecondSync()
    ensures var d := Dict([[Text("a@x.com")]], map[[Text("a@x.com")] := PaddedUser()]);
            Upsert(map[0 := PaddedUser()], 1, d, ["email"], Keep)
              == Upserted(map[0 := PaddedUser(), 1 := PaddedUser()], 2, map[[Text("a@x.com")] := 1])
  {
    var d := Dict([[Text("a@x.com")]], map[[Text("a@x.com")] := PaddedUser()]);
    assert KeyOf(PaddedUser(), ["email"]) == [Text("a@x.com ")];
    assert Patched(map[0 := PaddedUser()], d.entries, ["email"]) == map[0 := PaddedUser()];
    assert Matched(map[0 := PaddedUser()], d.entries, ["email"]) == {};
  }

  /** Two rows with the same email break the uniqueness of Users. */
  lemma PaddedTwice()
    ensures !Unique(Users, map[0 := PaddedUser(), 1 := PaddedUser()])
  {
    var t := map[0 := PaddedUser(), 1 := PaddedUser()];
    var key := KeyOf(t[0], ["email"]);
    assert key == KeyOf(t[1], ["email"]) == [Text("a@x.com ")];
    assert !HasNull(key);
    assert !UniqueOn(t, Constraints(Users)[0]);
  }

  /**
   * As written, `sync_tasks` keys a user by the stripped email but stores
   * the email as sent: syncing the same user twice finds no row under the
   * stripped email the second time, creates a second row with the same
   * email, and breaks the uniqueness of `email`.
   */
  lemma UnstrippedEmailDuplicates()
    ensures var d := UserBatchAsWritten([PaddedTask()]);
            var u := Upsert(map[], 0, d, ["email"], Keep);
            var v := Upsert(u.table, u.next, d, ["email"], Keep);
            v.created != map[] && !Unique(Users, v.table)
  {
    PaddedUsers();
    PaddedFirstSync();
    PaddedSecondSync();
    PaddedTwice();
  }

  /**
   * With the email stored stripped, as its key, syncing the users of any
   * records a second time creates no row and changes nothing (given a
   * constructor that keeps its fields).
   */
  lemma ResyncCreatesNoUser(g: seq<TaskIn>, t: Table, next: nat, construct: Construct)
    requires forall id :: id in t ==> id < next
    requires KeepsFields(construct)
    ensures var d := UserBatch(g);
            var u := Upsert(t, next, d, ["email"], construct);
            var v := Upsert(u.table, u.next, d, ["email"], construct);
            v.created == map[] && v.next == u.next && v.table == u.table
  {
    UsersKeyedOf(g);
    UpsertTwice(t, next, UserBatch(g), ["email"], construct);
  }
}
