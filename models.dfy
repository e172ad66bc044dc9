/**
 * The derived state of the stackpm data model (stackpm/models.py): the
 * cached work-day counts of a Task, and the historical views `as_of` of a
 * Task and of an Iteration rebuilt from the change events recorded for them.
 *
 * Dates are day numbers (see module Workdays); identifiers of related rows
 * stand for the related objects.
 */
module Models {
  import opened Common
  import opened Workdays

  // ---------------------------------------------------------------------
  // Rows

  /** The two lifecycle stages whose work-day counts a Task caches. */
  datatype Stage = DevDone | ProdDone

  /** The columns of a Task row. */
  datatype TaskRecord = TaskRecord(
    id: nat, extId: string, name: string, createdOn: Day, updatedOn: Day,
    iterationId: Option<nat>, userId: nat,
    startedOn: Option<Day>, devDoneOn: Option<Day>, prodDoneOn: Option<Day>,
    effortEst: Option<string>,
    devDoneWorkdays: Option<int>, prodDoneWorkdays: Option<int>,
    resolution: Option<string>, rank: Option<int>, roundTrips: Option<int>)
  {
    /** The `<stage>_on` column. */
    function DoneOn(s: Stage): Option<Day>
    {
      match s
      case DevDone => devDoneOn
      case ProdDone => prodDoneOn
    }

    /** The `<stage>_workdays` column. */
    function Cache(s: Stage): Option<int>
    {
      match s
      case DevDone => devDoneWorkdays
      case ProdDone => prodDoneWorkdays
    }

    /** This row with the `<stage>_workdays` column set to `v`. */
    function WithCache(s: Stage, v: Option<int>): (r: TaskRecord)
      ensures r.Cache(s) == v
      ensures forall t :: t != s ==> r.Cache(t) == Cache(t)
    {
      match s
      case DevDone => this.(devDoneWorkdays := v)
      case ProdDone => this.(prodDoneWorkdays := v)
    }
  }

  /** The columns of an Iteration row. */
  datatype IterationRecord = IterationRecord(
    id: nat, extId: string, name: string, createdOn: Day, updatedOn: Day,
    rank: int, effortEst: Option<string>, valueEst: Option<string>,
    team: Option<string>)

  /** The `type` enumeration of an Event row. */
  datatype EventKind = IterationChange | EstimateChange | UserChange | Outlier

  /**
   * The columns of an Event row: `iterationId` is the iteration after an
   * iteration change and `fromIterationId` the one before it. The schema
   * declares `task_id` non-null; it is kept optional here so that the
   * `e.task is None` test of `Iteration.as_of` can be stated.
   */
  datatype EventRecord = EventRecord(
    kind: EventKind, occuredOn: Day,
    iterationId: Option<nat>, fromIterationId: Option<nat>, taskId: Option<nat>,
    fromUserId: Option<nat>, toUserId: Option<nat>,
    fromEffortEst: Option<string>, toEffortEst: Option<string>)

  /** The date `dt or now` that an `as_of` call looks back to. */
  function AsOfDate(dt: Option<Day>, now: Day): (at: Day)
    ensures dt.Some? ==> at == dt.value
    ensures dt.None? ==> at == now
  {
    if dt.Some? then dt.value else now
  }

  // ---------------------------------------------------------------------
  // Task.cache_workdays

  /** The third-party `networkdays(start, stop, holidays)`, which is not part of this model. */
  type NetworkDays = (Day, Day, set<Day>) -> int

  /**
   * The guard of `cache_workdays`: forced, or started with some done date
   * whose cached count is missing.
   */
  predicate NeedsRecache(r: TaskRecord, force: bool)
  {
    || force
    || (r.startedOn.Some?
        && ((r.devDoneOn.Some? && r.devDoneWorkdays.None?)
            || (r.prodDoneOn.Some? && r.prodDoneWorkdays.None?)))
  }

  /**
   * The new cached count of one stage during a recompute: the work days
   * from `started_on` to the stage's date over `daysOff` when both are
   * set, otherwise `None` when forced, otherwise untouched.
   */
  function StageCache(r: TaskRecord, s: Stage, force: bool, daysOff: set<Day>,
                      networkdays: NetworkDays): Option<int>
  {
    if r.startedOn.Some? && r.DoneOn(s).Some? then
      Some(networkdays(r.startedOn.value, r.DoneOn(s).value, daysOff))
    else if force then None
    else r.Cache(s)
  }

  /** The stages in the order `cache_workdays` visits them. */
  const Stages: seq<Stage> := [DevDone, ProdDone]

  /** The row after recomputing the stages `ss`, one after the other. */
  function RecacheStages(r: TaskRecord, ss: seq<Stage>, force: bool, daysOff: set<Day>,
                         networkdays: NetworkDays): (q: TaskRecord)
    ensures q.(devDoneWorkdays := r.devDoneWorkdays, prodDoneWorkdays := r.prodDoneWorkdays) == r
    decreases |ss|
  {
    if ss == [] then r
    else
      var p := RecacheStages(r, ss[..|ss| - 1], force, daysOff, networkdays);
      var s := ss[|ss| - 1];
      p.WithCache(s, StageCache(p, s, force, daysOff, networkdays))
  }

  /** The row after `cache_workdays(force)` with `daysOff` = vacations ∪ holidays. */
  function Recached(r: TaskRecord, force: bool, daysOff: set<Day>,
                    networkdays: NetworkDays): TaskRecord
  {
    if NeedsRecache(r, force) then RecacheStages(r, Stages, force, daysOff, networkdays)
    else r
  }

  /** Not forced and nothing pending: `cache_workdays` changes nothing. */
  lemma RecacheIdle(r: TaskRecord, daysOff: set<Day>, networkdays: NetworkDays)
    requires !NeedsRecache(r, false)
    ensures Recached(r, false, daysOff, networkdays) == r
  {
  }

  /** `cache_workdays` writes only the two cached counts. */
  lemma RecacheOnlyCaches(r: TaskRecord, force: bool, daysOff: set<Day>,
                          networkdays: NetworkDays)
    ensures var q := Recached(r, force, daysOff, networkdays);
            q.(devDoneWorkdays := r.devDoneWorkdays, prodDoneWorkdays := r.prodDoneWorkdays) == r
  {
  }

  /**
   * What a recompute does to each stage: with `started_on` and the stage's
   * date set, the count becomes `networkdays(started_on, date, daysOff)`;
   * otherwise a forced recompute resets it to `None` and an unforced one
   * leaves it alone.
   */
  lemma {:induction false} RecacheStage(r: TaskRecord, force: bool, daysOff: set<Day>,
                                        networkdays: NetworkDays, s: Stage)
    requires NeedsRecache(r, force)
    ensures var q := Recached(r, force, daysOff, networkdays);
            && (r.startedOn.Some? && r.DoneOn(s).Some? ==>
                  q.Cache(s) == Some(networkdays(r.startedOn.value, r.DoneOn(s).value, daysOff)))
            && (!(r.startedOn.Some? && r.DoneOn(s).Some?) && force ==> q.Cache(s) == None)
            && (!(r.startedOn.Some? && r.DoneOn(s).Some?) && !force ==> q.Cache(s) == r.Cache(s))
  {
    var one := RecacheStages(r, [DevDone], force, daysOff, networkdays);
    assert [DevDone][..0] == [];
    assert Stages[..1] == [DevDone];
    assert one == r.WithCache(DevDone, StageCache(r, DevDone, force, daysOff, networkdays));
    assert StageCache(one, ProdDone, force, daysOff, networkdays)
        == StageCache(r, ProdDone, force, daysOff, networkdays);
  }

  /** After `cache_workdays`, forced or not, an unforced call has nothing left to do. */
  lemma RecacheSettles(r: TaskRecord, force: bool, daysOff: set<Day>, networkdays: NetworkDays)
    ensures !NeedsRecache(Recached(r, force, daysOff, networkdays), false)
    ensures Recached(Recached(r, force, daysOff, networkdays), false, daysOff, networkdays)
         == Recached(r, force, daysOff, networkdays)
  {
    if NeedsRecache(r, force) {
      RecacheStage(r, force, daysOff, networkdays, DevDone);
      RecacheStage(r, force, daysOff, networkdays, ProdDone);
      RecacheOnlyCaches(r, force, daysOff, networkdays);
    }
  }

  /**
   * A new Task that has started and is dev-done, built without a cached
   * dev count, gets `dev_done_workdays` computed by its constructor.
   */
  lemma NewTaskCachesDev(r: TaskRecord, daysOff: set<Day>, networkdays: NetworkDays)
    requires r.startedOn.Some? && r.devDoneOn.Some? && r.devDoneWorkdays.None?
    ensures Recached(r, false, daysOff, networkdays).devDoneWorkdays
         == Some(networkdays(r.startedOn.value, r.devDoneOn.value, daysOff))
  {
    RecacheStage(r, false, daysOff, networkdays, DevDone);
  }

  /** A Task object, whose cached counts `cache_workdays` updates in place. */
  class Task {
    var id: nat
    var extId: string
    var name: string
    var createdOn: Day
    var updatedOn: Day
    var iterationId: Option<nat>
    var userId: nat
    var startedOn: Option<Day>
    var devDoneOn: Option<Day>
    var prodDoneOn: Option<Day>
    var effortEst: Option<string>
    var devDoneWorkdays: Option<int>
    var prodDoneWorkdays: Option<int>
    var resolution: Option<string>
    var rank: Option<int>
    var roundTrips: Option<int>

    /** The current columns of this Task. */
    function Record(): TaskRecord
      reads this
    {
      TaskRecord(id, extId, name, createdOn, updatedOn, iterationId, userId,
                 startedOn, devDoneOn, prodDoneOn, effortEst,
                 devDoneWorkdays, prodDoneWorkdays, resolution, rank, roundTrips)
    }

    /**
     * `Task(**kwargs)`: the columns given, then `cache_workdays()`; the
     * user's vacations and the holidays are those the new row sees.
     */
    constructor (fields: TaskRecord, vacations: set<Day>, holidays: set<Day>,
                 networkdays: NetworkDays)
      ensures Record() == Recached(fields, false, vacations + holidays, networkdays)
    {
      id, extId, name := fields.id, fields.extId, fields.name;
      createdOn, updatedOn := fields.createdOn, fields.updatedOn;
      iterationId, userId := fields.iterationId, fields.userId;
      startedOn, devDoneOn, prodDoneOn := fields.startedOn, fields.devDoneOn, fields.prodDoneOn;
      effortEst := fields.effortEst;
      devDoneWorkdays, prodDoneWorkdays := fields.devDoneWorkdays, fields.prodDoneWorkdays;
      resolution, rank, roundTrips := fields.resolution, fields.rank, fields.roundTrips;
      new;
      var _, _ := CacheWorkdays(false, vacations, holidays, networkdays);
    }

    /** Sets the `<stage>_workdays` column. */
    method SetCache(s: Stage, v: Option<int>)
      modifies this
      ensures Record() == old(Record()).WithCache(s, v)
    {
      match s
      case DevDone => devDoneWorkdays := v;
      case ProdDone => prodDoneWorkdays := v;
    }

    /**
     * `cache_workdays(force)`: when forced, or when a done date lacks its
     * cached count, recompute both counts over the user's vacations and the
     * holidays; return the two counts afterwards.
     */
    method CacheWorkdays(force: bool, vacations: set<Day>, holidays: set<Day>,
                         networkdays: NetworkDays)
      returns (dev: Option<int>, prod: Option<int>)
      modifies this
      ensures Record() == Recached(old(Record()), force, vacations + holidays, networkdays)
      ensures dev == devDoneWorkdays && prod == prodDoneWorkdays
    {
      if force || (startedOn.Some? && ((devDoneOn.Some? && devDoneWorkdays.None?)
                                       || (prodDoneOn.Some? && prodDoneWorkdays.None?))) {
        var daysOff := vacations + holidays;
        ghost var before := Record();
        var i := 0;
        while i < |Stages|
          invariant 0 <= i <= |Stages|
          invariant Record() == RecacheStages(before, Stages[..i], force, daysOff, networkdays)
        {
          var stage := Stages[i];
          var stop := if stage == DevDone then devDoneOn else prodDoneOn;
          assert Stages[..i + 1][..i] == Stages[..i];
          if startedOn.Some? && stop.Some? {
            SetCache(stage, Some(networkdays(startedOn.value, stop.value, daysOff)));
          } else if force {
            SetCache(stage, None);
          }
          i := i + 1;
        }
        assert Stages[..|Stages|] == Stages;
      }
      dev, prod := devDoneWorkdays, prodDoneWorkdays;
    }
  }

  // ---------------------------------------------------------------------
  // Task.as_of

  /**
   * The dictionary `Task.as_of` returns: the columns, and the related
   * iteration and user (by id), which events may revert independently of
   * the `iteration_id`/`user_id` columns copied with them.
   */
  datatype TaskSnapshot = TaskSnapshot(fields: TaskRecord, iteration: Option<nat>,
                                       user: Option<nat>)

  /** A value that a change event of some kind reverts. */
  datatype Prior = IterationPrior(iteration: Option<nat>) | EstimatePrior(est: Option<string>)
                 | UserPrior(user: Option<nat>) | NoPrior

  /** The part of a snapshot that events of kind `k` revert. */
  function Tracked(cp: TaskSnapshot, k: EventKind): Prior
  {
    match k
    case IterationChange => IterationPrior(cp.iteration)
    case EstimateChange => EstimatePrior(cp.fields.effortEst)
    case UserChange => UserPrior(cp.user)
    case Outlier => NoPrior
  }

  /** The `from_` value an event of kind `k` carries. */
  function FromValue(e: EventRecord, k: EventKind): Prior
  {
    match k
    case IterationChange => IterationPrior(e.fromIterationId)
    case EstimateChange => EstimatePrior(e.fromEffortEst)
    case UserChange => UserPrior(e.fromUserId)
    case Outlier => NoPrior
  }

  /** Whether `e` undoes a change of kind `k` when looking back to `dt`. */
  predicate Undoes(e: EventRecord, k: EventKind, dt: Day)
  {
    e.kind == k && e.occuredOn >= dt
  }

  /** One step of the event loop: an event on or after `dt` reverts its field. */
  function Revert(cp: TaskSnapshot, e: EventRecord, dt: Day): TaskSnapshot
  {
    if e.occuredOn >= dt then
      match e.kind
      case IterationChange => cp.(iteration := e.fromIterationId)
      case EstimateChange => cp.(fields := cp.fields.(effortEst := e.fromEffortEst))
      case UserChange => cp.(user := e.fromUserId)
      case Outlier => cp
    else cp
  }

  /** The event loop of `Task.as_of`, over the events in the order given. */
  function RevertAll(cp: TaskSnapshot, events: seq<EventRecord>, dt: Day): TaskSnapshot
    decreases |events|
  {
    if events == [] then cp else RevertAll(Revert(cp, events[0], dt), events[1..], dt)
  }

  /** One event changes only what its own kind tracks. */
  lemma RevertOther(cp: TaskSnapshot, e: EventRecord, dt: Day, k: EventKind)
    requires !Undoes(e, k, dt)
    ensures Tracked(Revert(cp, e, dt), k) == Tracked(cp, k)
  {
  }

  /** With no event of kind `k` on or after `dt`, what kind `k` tracks is unchanged. */
  lemma {:induction false} NoUndoKeeps(cp: TaskSnapshot, events: seq<EventRecord>, dt: Day,
                                       k: EventKind)
    requires forall j :: 0 <= j < |events| ==> !Undoes(events[j], k, dt)
    ensures Tracked(RevertAll(cp, events, dt), k) == Tracked(cp, k)
    decreases |events|
  {
    if events != [] {
      RevertOther(cp, events[0], dt, k);
      NoUndoKeeps(Revert(cp, events[0], dt), events[1..], dt, k);
    }
  }

  /** The last event of kind `k` on or after `dt` in loop order decides what kind `k` tracks. */
  lemma {:induction false} LastUndoWins(cp: TaskSnapshot, events: seq<EventRecord>, dt: Day,
                                        k: EventKind, i: nat)
    requires i < |events| && Undoes(events[i], k, dt)
    requires forall j :: i < j < |events| ==> !Undoes(events[j], k, dt)
    ensures Tracked(RevertAll(cp, events, dt), k) == FromValue(events[i], k)
    decreases |events|
  {
    var next := Revert(cp, events[0], dt);
    if i == 0 {
      assert Tracked(next, k) == FromValue(events[0], k);
      NoUndoKeeps(next, events[1..], dt, k);
    } else {
      LastUndoWins(next, events[1..], dt, k, i - 1);
    }
  }

  /** The order of the `events` relationship: newest first. */
  predicate NewestFirst(events: seq<EventRecord>)
  {
    forall i, j :: 0 <= i < j < |events| ==> events[i].occuredOn >= events[j].occuredOn
  }

  /**
   * With the events newest first, the EARLIEST event of kind `k` on or
   * after `dt` supplies the reverted value: the value the field had
   * before the first change since `dt`.
   */
  lemma EarliestUndoWins(cp: TaskSnapshot, events: seq<EventRecord>, dt: Day,
                         k: EventKind, i: nat)
    requires NewestFirst(events)
    requires i < |events| && Undoes(events[i], k, dt)
    requires forall j :: 0 <= j < |events| && j != i && Undoes(events[j], k, dt) ==>
               events[j].occuredOn > events[i].occuredOn
    ensures Tracked(RevertAll(cp, events, dt), k) == FromValue(events[i], k)
  {
    LastUndoWins(cp, events, dt, k, i);
  }

  /** The event loop touches only the effort estimate and the related iteration and user. */
  lemma {:induction false} RevertKeepsColumns(cp: TaskSnapshot, events: seq<EventRecord>, dt: Day)
    ensures RevertAll(cp, events, dt).fields.(effortEst := cp.fields.effortEst) == cp.fields
    decreases |events|
  {
    if events != [] {
      RevertKeepsColumns(Revert(cp, events[0], dt), events[1..], dt);
    }
  }

  /** `v` kept when it is on or before `dt`, else `None`. */
  function UpTo(v: Option<Day>, dt: Day): Option<Day>
  {
    if v.Some? && dt < v.value then None else v
  }

  /**
   * The date fields of the snapshot: a lifecycle date later than `dt` is
   * cleared, a done date together with its cached count.
   */
  function ClearFuture(f: TaskRecord, dt: Day): (g: TaskRecord)
    ensures g.startedOn == UpTo(f.startedOn, dt)
    ensures forall s :: g.DoneOn(s) == UpTo(f.DoneOn(s), dt)
    ensures forall s :: g.Cache(s) == if g.DoneOn(s) == f.DoneOn(s) then f.Cache(s) else None
  {
    var g := f.(startedOn := UpTo(f.startedOn, dt));
    var g := if UpTo(f.devDoneOn, dt) == f.devDoneOn then g
             else g.(devDoneOn := None, devDoneWorkdays := None);
    if UpTo(f.prodDoneOn, dt) == f.prodDoneOn then g
    else g.(prodDoneOn := None, prodDoneWorkdays := None)
  }

  /**
   * `Task.as_of(dt)`: nothing before its Task was created; otherwise a
   * copy of that Task with its future lifecycle dates cleared and its
   * events on or after `dt` undone, newest first.
   */
  function TaskAsOf(t: TaskRecord, events: seq<EventRecord>, dt: Day): (r: Option<TaskSnapshot>)
    ensures r.None? <==> dt < t.createdOn
  {
    if dt < t.createdOn then None
    else Some(RevertAll(TaskSnapshot(ClearFuture(t, dt), t.iterationId, Some(t.userId)),
                        events, dt))
  }

  /**
   * What a snapshot keeps of a Task's dates and columns: the dates on or
   * before `dt` and no later one, a done date's cached count only with the
   * date, and every other column but the effort estimate as it is now.
   */
  lemma TaskAsOfDates(t: TaskRecord, events: seq<EventRecord>, dt: Day)
    requires t.createdOn <= dt
    ensures var f := TaskAsOf(t, events, dt).value.fields;
            && f.startedOn == UpTo(t.startedOn, dt)
            && (forall s :: f.DoneOn(s) == UpTo(t.DoneOn(s), dt))
            && (forall s :: f.Cache(s) == if f.DoneOn(s) == t.DoneOn(s) then t.Cache(s) else None)
            && f.(startedOn := t.startedOn, devDoneOn := t.devDoneOn, prodDoneOn := t.prodDoneOn,
                  devDoneWorkdays := t.devDoneWorkdays, prodDoneWorkdays := t.prodDoneWorkdays,
                  effortEst := t.effortEst) == t
  {
    var cp := TaskSnapshot(ClearFuture(t, dt), t.iterationId, Some(t.userId));
    RevertKeepsColumns(cp, events, dt);
  }

  /**
   * The reverted effort estimate, iteration and user: the value carried by
   * the earliest change of that kind since `dt`, or the current one when
   * there is none.
   */
  lemma TaskAsOfReverts(t: TaskRecord, events: seq<EventRecord>, dt: Day, k: EventKind)
    requires t.createdOn <= dt && NewestFirst(events)
    ensures var cp := TaskSnapshot(ClearFuture(t, dt), t.iterationId, Some(t.userId));
            var snap := TaskAsOf(t, events, dt).value;
            && ((forall j :: 0 <= j < |events| ==> !Undoes(events[j], k, dt)) ==>
                  Tracked(snap, k) == Tracked(cp, k))
            && (forall i ::
                  (&& 0 <= i < |events| && Undoes(events[i], k, dt)
                   && (forall j :: 0 <= j < |events| && j != i && Undoes(events[j], k, dt) ==>
                         events[j].occuredOn > events[i].occuredOn))
                  ==> Tracked(snap, k) == FromValue(events[i], k))
  {
    var cp := TaskSnapshot(ClearFuture(t, dt), t.iterationId, Some(t.userId));
    if forall j :: 0 <= j < |events| ==> !Undoes(events[j], k, dt) {
      NoUndoKeeps(cp, events, dt, k);
    }
    forall i | 0 <= i < |events| && Undoes(events[i], k, dt)
               && (forall j :: 0 <= j < |events| && j != i && Undoes(events[j], k, dt) ==>
                     events[j].occuredOn > events[i].occuredOn)
      ensures Tracked(TaskAsOf(t, events, dt).value, k) == FromValue(events[i], k)
    {
      EarliestUndoWins(cp, events, dt, k, i);
    }
  }

  // ---------------------------------------------------------------------
  // Task.as_of as written

  /** The exceptions the code as written raises. */
  datatype AsOfError = NoneHasNoId

  /**
   * `_copy_as_of(task, relateds=['iteration', 'user'])` as written: it reads
   * `.id` of each related object, which raises for a task without an
   * iteration.
   */
  function CopyAsOfAsWritten(t: TaskRecord): (r: Result<TaskSnapshot, AsOfError>)
    ensures r.Failure? <==> t.iterationId.None?
    ensures r.Success? ==> r.value == TaskSnapshot(t, t.iterationId, Some(t.userId))
  {
    if t.iterationId.None? then Failure(NoneHasNoId)
    else Success(TaskSnapshot(t, t.iterationId, Some(t.userId)))
  }

  /** The date fields as written: `started_on` is cleared when `dt > started_on`. */
  function ClearFutureAsWritten(f: TaskRecord, dt: Day): TaskRecord
  {
    var started := if f.startedOn.Some? && dt > f.startedOn.value then None else f.startedOn;
    ClearFuture(f, dt).(startedOn := started)
  }

  /** `Task.as_of(dt)` as written. */
  function TaskAsOfAsWritten(t: TaskRecord, events: seq<EventRecord>, dt: Day)
    : (r: Result<Option<TaskSnapshot>, AsOfError>)
    ensures r == Success(None) <==> dt < t.createdOn
  {
    if dt < t.createdOn then Success(None)
    else match CopyAsOfAsWritten(t)
      case Failure(e) => Failure(e)
      case Success(cp) =>
        Success(Some(RevertAll(cp.(fields := ClearFutureAsWritten(cp.fields, dt)), events, dt)))
  }

  /** A task created on day 0 and started on day 5, in iteration 1. */
  function StartedTask(): TaskRecord
  {
    TaskRecord(1, "T-1", "task", 0, 0, Some(1), 1, Some(5), None, None, None,
               None, None, None, None, None)
  }

  /**
   * As written, the view on day 10 of a task started on day 5 says it has
   * not started, and the view on day 3 says it has; the corrected view says
   * the opposite.
   */
  lemma StartedOnInverted()
    ensures TaskAsOfAsWritten(StartedTask(), [], 10).value.value.fields.startedOn == None
    ensures TaskAsOfAsWritten(StartedTask(), [], 3).value.value.fields.startedOn == Some(5)
    ensures TaskAsOf(StartedTask(), [], 10).value.fields.startedOn == Some(5)
    ensures TaskAsOf(StartedTask(), [], 3).value.fields.startedOn == None
  {
  }

  /** As written, the view of a task without an iteration raises; the corrected view exists. */
  lemma NoIterationRaises(t: TaskRecord, events: seq<EventRecord>, dt: Day)
    requires t.createdOn <= dt && t.iterationId.None?
    ensures TaskAsOfAsWritten(t, events, dt).Failure?
    ensures TaskAsOf(t, events, dt).Some?
  {
  }

  // ---------------------------------------------------------------------
  // Iteration.as_of

  /** The dictionary `Iteration.as_of` returns: the columns and the tasks in it at the date. */
  datatype IterationSnapshot = IterationSnapshot(fields: IterationRecord, tasks: seq<TaskSnapshot>)

  /** A task with its events (its `events` relationship, newest first). */
  datatype TaskHistory = TaskHistory(task: TaskRecord, events: seq<EventRecord>)

  /**
   * The candidate query: tasks joined with their events, where a Task is
   * in the iteration now, or one of its events moved it from or to it.
   * The join is an inner join, so a task without events is never a
   * candidate.
   */
  predicate Candidate(h: TaskHistory, iterationId: nat)
  {
    exists e :: e in h.events
      && (h.task.iterationId == Some(iterationId) || e.fromIterationId == Some(iterationId)
          || e.iterationId == Some(iterationId))
  }

  /** Whether a task's view at the date places it in the iteration. */
  predicate InIterationAt(snap: Option<TaskSnapshot>, iterationId: nat)
  {
    snap.Some? && snap.value.iteration == Some(iterationId)
  }

  /** The line-124 test as written: `task_on_dt['iteration'].id == self.id`. */
  function InIterationAtAsWritten(snap: Option<TaskSnapshot>, iterationId: nat)
    : (r: Result<bool, AsOfError>)
    ensures r.Failure? <==> snap.Some? && snap.value.iteration.None?
    ensures r.Success? ==> r.value == InIterationAt(snap, iterationId)
  {
    if snap.None? then Success(false)
    else if snap.value.iteration.None? then Failure(NoneHasNoId)
    else Success(snap.value.iteration.value == iterationId)
  }

  /**
   * As written, a candidate task that was moved into the iteration from no
   * iteration at all makes the view of the iteration before that move raise.
   */
  lemma MovedFromNoIterationRaises()
    ensures var snap := Some(TaskSnapshot(StartedTask(), None, Some(1)));
            InIterationAtAsWritten(snap, 1).Failure? && !InIterationAt(snap, 1)
  {
  }

  /** The tasks of `tasks` that `Iteration.as_of` puts in the iteration, in order. */
  function Rolled(tasks: seq<TaskHistory>, iterationId: nat, dt: Day): seq<TaskSnapshot>
    decreases |tasks|
  {
    if tasks == [] then []
    else
      var rest := Rolled(tasks[..|tasks| - 1], iterationId, dt);
      var h := tasks[|tasks| - 1];
      var snap := TaskAsOf(h.task, h.events, dt);
      if Candidate(h, iterationId) && InIterationAt(snap, iterationId) then rest + [snap.value]
      else rest
  }

  /**
   * The tasks of the view are exactly the views at `dt` of the candidate
   * tasks that existed then and were in the iteration then.
   */
  lemma {:induction false} RolledMembers(tasks: seq<TaskHistory>, iterationId: nat, dt: Day)
    ensures forall snap :: snap in Rolled(tasks, iterationId, dt) <==>
              exists h :: h in tasks && Candidate(h, iterationId)
                && TaskAsOf(h.task, h.events, dt) == Some(snap)
                && snap.iteration == Some(iterationId)
    decreases |tasks|
  {
    if tasks != [] {
      var init := tasks[..|tasks| - 1];
      RolledMembers(init, iterationId, dt);
      assert forall h :: h in tasks <==> h in init || h == tasks[|tasks| - 1];
    }
  }

  /** The effort-estimate revert loop of `Iteration.as_of`: events without a task revert it. */
  function IterationEffort(est: Option<string>, events: seq<EventRecord>, dt: Day): Option<string>
    decreases |events|
  {
    if events == [] then est
    else
      var e := events[0];
      var est := if e.occuredOn >= dt && e.kind == EstimateChange && e.taskId.None?
                 then e.fromEffortEst else est;
      IterationEffort(est, events[1..], dt)
  }

  /**
   * Every event row has a task (`task_id` is non-null), so the revert loop
   * of `Iteration.as_of` never changes the iteration's effort estimate.
   */
  lemma {:induction false} IterationEffortKept(est: Option<string>, events: seq<EventRecord>,
                                               dt: Day)
    requires forall e :: e in events ==> e.taskId.Some?
    ensures IterationEffort(est, events, dt) == est
    decreases |events|
  {
    if events != [] {
      assert events[0] in events;
      assert forall e :: e in events[1..] ==> e in events;
      IterationEffortKept(est, events[1..], dt);
    }
  }

  /**
   * `Iteration.as_of(dt)`: nothing before the iteration was created;
   * otherwise its columns, the effort estimate reverted by its own events,
   * and the candidate tasks whose view at `dt` is in this iteration.
   */
  method IterationAsOf(it: IterationRecord, iterationEvents: seq<EventRecord>,
                       tasks: seq<TaskHistory>, dt: Option<Day>, now: Day)
    returns (r: Option<IterationSnapshot>)
    ensures var at := AsOfDate(dt, now);
            && (r.None? <==> at < it.createdOn)
            && (r.Some? ==>
                  && r.value.fields == it.(effortEst := IterationEffort(it.effortEst, iterationEvents, at))
                  && r.value.tasks == Rolled(tasks, it.id, at))
  {
    var at := if dt.Some? then dt.value else now;
    if at < it.createdOn {
      return None;
    }
    var fields := it;
    var i := 0;
    while i < |iterationEvents|
      invariant 0 <= i <= |iterationEvents|
      invariant fields == it.(effortEst := fields.effortEst)
      invariant IterationEffort(fields.effortEst, iterationEvents[i..], at)
             == IterationEffort(it.effortEst, iterationEvents, at)
    {
      var e := iterationEvents[i];
      if e.occuredOn >= at && e.kind == EstimateChange && e.taskId.None? {
        fields := fields.(effortEst := e.fromEffortEst);
      }
      assert iterationEvents[i..][1..] == iterationEvents[i + 1..];
      i := i + 1;
    }
    var rolled: seq<TaskSnapshot> := [];
    var j := 0;
    while j < |tasks|
      invariant 0 <= j <= |tasks|
      invariant rolled == Rolled(tasks[..j], it.id, at)
    {
      var h := tasks[j];
      var snap := TaskAsOf(h.task, h.events, at);
      assert tasks[..j + 1][..j] == tasks[..j];
      if Candidate(h, it.id) && snap.Some? && snap.value.iteration == Some(it.id) {
        rolled := rolled + [snap.value];
      }
      j := j + 1;
    }
    assert tasks[..|tasks|] == tasks;
    return Some(IterationSnapshot(fields, rolled));
  }
}
