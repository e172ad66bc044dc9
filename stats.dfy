/**
 * The statistics engine of stackpm/stats.py, `lead_time_stats`, on its
 * integer side: which completions count as evidence for a user and an
 * effort estimate, the time order they are sorted into, which days get a
 * record, and the evidence (and so the sample size) of each series on each
 * day. The weighted mean, standard deviation, median, standard error and
 * confidence interval are floating-point functions of that evidence and
 * are not modelled; a record carries the evidence list they are computed
 * from.
 */
module Stats {
  import opened Common
  import opened Workdays
  import opened Models

  // ---------------------------------------------------------------------
  // Evidence

  /** One completion: the day a stage was done and its cached work-day count. */
  datatype Done = Done(on: Day, workdays: int)

  /** The rows the query selects: the user's Tasks with the estimate, done in some stage. */
  predicate Selected(t: TaskRecord, user: Option<nat>, est: Option<string>)
  {
    Some(t.userId) == user && t.effortEst == est && (t.devDoneOn.Some? || t.prodDoneOn.Some?)
  }

  /** A selected Task counts for a stage when both its date and a non-zero work-day count are set. */
  predicate Counts(t: TaskRecord, s: Stage)
  {
    t.DoneOn(s).Some? && t.Cache(s).Some? && t.Cache(s).value != 0
  }

  /** The completions of stage `s` among `tasks`, in query order. */
  function Dones(tasks: seq<TaskRecord>, user: Option<nat>, est: Option<string>, s: Stage): (ds: seq<Done>)
    ensures |ds| <= |tasks|
    ensures forall d :: d in ds ==> d.workdays != 0
    decreases |tasks|
  {
    if tasks == [] then []
    else
      var t := tasks[|tasks| - 1];
      Dones(tasks[..|tasks| - 1], user, est, s)
        + (if Selected(t, user, est) && Counts(t, s) then [Done(t.DoneOn(s).value, t.Cache(s).value)] else [])
  }

  // ---------------------------------------------------------------------
  // Time sort

  /** Completions in non-decreasing date order. */
  predicate ByDate(ds: seq<Done>)
  {
    forall i, j :: 0 <= i < j < |ds| ==> ds[i].on <= ds[j].on
  }

  /** `d` placed after every completion of `ds` dated no later than it. */
  function Insert(d: Done, ds: seq<Done>): (r: seq<Done>)
    ensures multiset(r) == multiset(ds) + multiset{d}
    decreases |ds|
  {
    if ds == [] || ds[|ds| - 1].on <= d.on then ds + [d]
    else
      var init, last := ds[..|ds| - 1], ds[|ds| - 1];
      assert ds == init + [last];
      Insert(d, init) + [last]
  }

  /** Inserting into date order keeps date order. */
  lemma {:induction false} InsertByDate(d: Done, ds: seq<Done>)
    requires ByDate(ds)
    ensures ByDate(Insert(d, ds))
    decreases |ds|
  {
    if ds == [] || ds[|ds| - 1].on <= d.on {
    } else {
      var init, last := ds[..|ds| - 1], ds[|ds| - 1];
      InsertByDate(d, init);
      var r := Insert(d, init);
      forall x | x in r
        ensures x.on <= last.on
      {
        assert x in multiset(r);
        if x != d {
          assert x in multiset(init);
          var k :| 0 <= k < |init| && init[k] == x;
          assert ds[k] == x;
        }
      }
      assert Insert(d, ds) == r + [last];
    }
  }

  /** `list.sort(key=date)`: the completions, stably sorted by date. */
  function SortByDate(ds: seq<Done>): (r: seq<Done>)
    ensures ByDate(r)
    ensures multiset(r) == multiset(ds)
    decreases |ds|
  {
    if ds == [] then []
    else
      var init := ds[..|ds| - 1];
      assert ds == init + [ds[|ds| - 1]];
      InsertByDate(ds[|ds| - 1], SortByDate(init));
      Insert(ds[|ds| - 1], SortByDate(init))
  }

  // ---------------------------------------------------------------------
  // Evidence on a day

  /** The work-day counts of the completions dated on or before `day`, in order. */
  function UpTo(ds: seq<Done>, day: Day): seq<int>
    decreases |ds|
  {
    if ds == [] then []
    else
      var last := ds[|ds| - 1];
      UpTo(ds[..|ds| - 1], day) + (if last.on <= day then [last.workdays] else [])
  }

  /** Completions dated after `day` add no evidence for it. */
  lemma {:induction false} UpToLater(ds: seq<Done>, i: nat, day: Day)
    requires i <= |ds|
    requires forall j :: i <= j < |ds| ==> ds[j].on > day
    ensures UpTo(ds, day) == UpTo(ds[..i], day)
    decreases |ds|
  {
    if i < |ds| {
      var init := ds[..|ds| - 1];
      assert init[..i] == ds[..i];
      UpToLater(init, i, day);
    } else {
      assert ds[..i] == ds;
    }
  }

  /**
   * The inner loop of `lead_time_stats`: on time-sorted completions, the
   * evidence gathered until the first completion dated after `day` is all
   * the evidence dated on or before `day`.
   */
  method Evidence(items: seq<Done>, day: Day) returns (evidence: seq<int>)
    requires ByDate(items)
    ensures evidence == UpTo(items, day)
  {
    evidence := [];
    var i := 0;
    while i < |items|
      invariant 0 <= i <= |items|
      invariant evidence == UpTo(items[..i], day)
    {
      if items[i].on > day {
        UpToLater(items, i, day);
        return;
      }
      assert items[..i + 1][..i] == items[..i];
      evidence := evidence + [items[i].workdays];
      i := i + 1;
    }
    assert items[..i] == items;
  }

  /** Evidence only accumulates as the day advances. */
  lemma {:induction false} UpToGrows(ds: seq<Done>, day: Day, later: Day)
    requires day <= later
    ensures |UpTo(ds, day)| <= |UpTo(ds, later)|
    decreases |ds|
  {
    if ds != [] {
      UpToGrows(ds[..|ds| - 1], day, later);
    }
  }

  /** A completion dated on or before `day` is evidence for it. */
  lemma {:induction false} UpToHas(ds: seq<Done>, i: nat, day: Day)
    requires i < |ds| && ds[i].on <= day
    ensures UpTo(ds, day) != []
    decreases |ds|
  {
    if i < |ds| - 1 {
      UpToHas(ds[..|ds| - 1], i, day);
    }
  }

  /** Every piece of evidence is the work-day count of some completion. */
  lemma {:induction false} UpToFrom(ds: seq<Done>, day: Day)
    ensures forall w :: w in UpTo(ds, day) ==> exists d :: d in ds && d.on <= day && d.workdays == w
    decreases |ds|
  {
    if ds != [] {
      var init := ds[..|ds| - 1];
      UpToFrom(init, day);
      assert forall d :: d in init ==> d in ds;
    }
  }

  // ---------------------------------------------------------------------
  // Records

  /**
   * The record emitted for one day: `as_of`, `effort_est`, and for each
   * series with evidence its evidence list (`None`: no `<series>_*` keys,
   * a sample size of zero).
   */
  datatype DayStat = DayStat(asOf: Day, effortEst: Option<string>,
                             dev: Option<seq<int>>, prod: Option<seq<int>>)
  {
    /** `dev_done_sample_size`. */
    function DevSize(): nat { if dev.Some? then |dev.value| else 0 }
    /** `prod_done_sample_size`. */
    function ProdSize(): nat { if prod.Some? then |prod.value| else 0 }
  }

  /** An evidence list as the optional `<series>_*` keys of a record. */
  function Series(evidence: seq<int>): Option<seq<int>>
  {
    if evidence == [] then None else Some(evidence)
  }

  /** The record for `day`, when either series has evidence. */
  function StatOn(dev: seq<Done>, prod: seq<Done>, day: Day, est: Option<string>): (r: Option<DayStat>)
    ensures r.Some? ==> r.value.asOf == day && r.value.effortEst == est
  {
    var d, p := UpTo(dev, day), UpTo(prod, day);
    if d == [] && p == [] then None else Some(DayStat(day, est, Series(d), Series(p)))
  }

  /** The record function of one pair of series: `StatOn` for each day. */
  function DayRecord(dev: seq<Done>, prod: seq<Done>, est: Option<string>): (f: Day -> Option<DayStat>)
    ensures forall day :: f(day) == StatOn(dev, prod, day, est)
  {
    (day: Day) => StatOn(dev, prod, day, est)
  }

  /** The records `f` yields for the first `n` days from `start`, in day order. */
  function Collect(f: Day -> Option<DayStat>, start: Day, n: nat): seq<DayStat>
  {
    if n == 0 then []
    else
      var r := f(start + n - 1);
      Collect(f, start, n - 1) + (if r.Some? then [r.value] else [])
  }

  /** The records for the first `n` days from `start`, in day order. */
  function StatsFrom(dev: seq<Done>, prod: seq<Done>, start: Day, n: nat, est: Option<string>): seq<DayStat>
  {
    Collect(DayRecord(dev, prod, est), start, n)
  }

  /** The first day: the explicit `since`, or else the earliest completion of either series. */
  function StartDay(dev: seq<Done>, prod: seq<Done>, since: Arg<Option<Day>>): Day
    requires dev != [] || prod != []
  {
    if since.Passed? && since.value.Some? then since.value.value
    else if dev == [] then prod[0].on
    else if prod == [] then dev[0].on
    else if dev[0].on <= prod[0].on then dev[0].on else prod[0].on
  }

  /** The number of days `(until - since).days` iterated over (none when `until` is earlier). */
  function DayCount(start: Day, until: Day): nat
  {
    if until > start then until - start else 0
  }

  /** The records emitted from the two time-sorted series up to (not including) `until`. */
  function StatsOf(dev: seq<Done>, prod: seq<Done>, since: Arg<Option<Day>>, until: Day,
                   est: Option<string>): seq<DayStat>
  {
    if dev == [] && prod == [] then []
    else
      var start := StartDay(dev, prod, since);
      StatsFrom(dev, prod, start, DayCount(start, until), est)
  }

  /** The completions of stage `s`, sorted by date: one series of evidence. */
  function Completions(tasks: seq<TaskRecord>, user: Option<nat>, est: Option<string>, s: Stage): (ds: seq<Done>)
    ensures ByDate(ds)
    ensures multiset(ds) == multiset(Dones(tasks, user, est, s))
    ensures forall d :: d in ds ==> d.workdays != 0
  {
    var ds := SortByDate(Dones(tasks, user, est, s));
    assert forall d :: d in ds ==> d in multiset(Dones(tasks, user, est, s));
    ds
  }

  /**
   * `lead_time_stats(user, est, since, until)` with `datetime.now()` as
   * `now`: one record per day from the start day up to (not including)
   * `until`, for the days with evidence in either series.
   */
  function LeadTimes(tasks: seq<TaskRecord>, user: Option<nat>, est: Option<string>,
                     since: Arg<Option<Day>>, until: Arg<Day>, now: Day): seq<DayStat>
  {
    StatsOf(Completions(tasks, user, est, DevDone), Completions(tasks, user, est, ProdDone),
            since, if until.Passed? then until.value else now, est)
  }

  /** The unpacking loop of `lead_time_stats`: both series of completions, in query order. */
  method Unpack(tasks: seq<TaskRecord>, user: Option<nat>, est: Option<string>)
    returns (dev: seq<Done>, prod: seq<Done>)
    ensures dev == Dones(tasks, user, est, DevDone)
    ensures prod == Dones(tasks, user, est, ProdDone)
  {
    dev, prod := [], [];
    var i := 0;
    while i < |tasks|
      invariant 0 <= i <= |tasks|
      invariant dev == Dones(tasks[..i], user, est, DevDone)
      invariant prod == Dones(tasks[..i], user, est, ProdDone)
    {
      var t := tasks[i];
      assert tasks[..i + 1][..i] == tasks[..i];
      if Selected(t, user, est) && Counts(t, DevDone) {
        dev := dev + [Done(t.devDoneOn.value, t.devDoneWorkdays.value)];
      }
      if Selected(t, user, est) && Counts(t, ProdDone) {
        prod := prod + [Done(t.prodDoneOn.value, t.prodDoneWorkdays.value)];
      }
      i := i + 1;
    }
    assert tasks[..i] == tasks;
  }

  /** The day loop of `lead_time_stats`: a record for each day from `start` with evidence. */
  method EmitDays(dev: seq<Done>, prod: seq<Done>, start: Day, until: Day, est: Option<string>)
    returns (stats: seq<DayStat>)
    requires ByDate(dev) && ByDate(prod)
    ensures stats == StatsFrom(dev, prod, start, DayCount(start, until), est)
  {
    stats := [];
    var k := 0;
    while k < until - start
      invariant 0 <= k <= DayCount(start, until)
      invariant stats == StatsFrom(dev, prod, start, k, est)
    {
      var day := start + k;
      var devEvidence := Evidence(dev, day);
      var prodEvidence := Evidence(prod, day);
      if devEvidence != [] || prodEvidence != [] {
        stats := stats + [DayStat(day, est, Series(devEvidence), Series(prodEvidence))];
      }
      k := k + 1;
    }
  }

  /** `lead_time_stats`, step by step. */
  method LeadTimeStats(tasks: seq<TaskRecord>, user: Option<nat>, est: Option<string>,
                       since: Arg<Option<Day>>, until: Arg<Day>, now: Day)
    returns (stats: seq<DayStat>)
    ensures stats == LeadTimes(tasks, user, est, since, until, now)
  {
    var until0 := if until.Passed? then until.value else now;
    var dev, prod := Unpack(tasks, user, est);
    dev, prod := SortByDate(dev), SortByDate(prod);
    assert dev == Completions(tasks, user, est, DevDone);
    assert prod == Completions(tasks, user, est, ProdDone);
    if dev == [] && prod == [] {
      return [];
    }
    var start := StartDay(dev, prod, since);
    stats := EmitDays(dev, prod, start, until0, est);
  }

  // ---------------------------------------------------------------------
  // Properties

  /** Without a single counted completion there are no records at all. */
  lemma NoEvidenceNoStats(tasks: seq<TaskRecord>, user: Option<nat>, est: Option<string>,
                          since: Arg<Option<Day>>, until: Arg<Day>, now: Day)
    requires Dones(tasks, user, est, DevDone) == [] && Dones(tasks, user, est, ProdDone) == []
    ensures LeadTimes(tasks, user, est, since, until, now) == []
  {
    assert multiset(Completions(tasks, user, est, DevDone)) == multiset{};
    assert multiset(Completions(tasks, user, est, ProdDone)) == multiset{};
  }

  /** A record function that dates each record by its own day. */
  ghost predicate Dated(f: Day -> Option<DayStat>)
  {
    forall day :: f(day).Some? ==> f(day).value.asOf == day
  }

  /** The records of the first `n - 1` days are the first records of the first `n` days. */
  lemma CollectPrefix(f: Day -> Option<DayStat>, start: Day, n: nat, i: nat)
    requires n > 0 && i < |Collect(f, start, n - 1)|
    ensures i < |Collect(f, start, n)| && Collect(f, start, n)[i] == Collect(f, start, n - 1)[i]
  {
  }

  /** A record past those of the first `n - 1` days is the record of day `start + n - 1`. */
  lemma CollectLast(f: Day -> Option<DayStat>, start: Day, n: nat, i: nat)
    requires n > 0 && |Collect(f, start, n - 1)| <= i < |Collect(f, start, n)|
    ensures f(start + n - 1) == Some(Collect(f, start, n)[i])
  {
  }

  /** The record at index `i` is the record of its own day, a day in range. */
  lemma {:induction false} CollectAt(f: Day -> Option<DayStat>, start: Day, n: nat, i: nat)
    requires Dated(f)
    requires i < |Collect(f, start, n)|
    ensures var r := Collect(f, start, n)[i];
      start <= r.asOf < start + n && f(r.asOf) == Some(r)
  {
    if i < |Collect(f, start, n - 1)| {
      CollectAt(f, start, n - 1, i);
      CollectPrefix(f, start, n, i);
    } else {
      CollectLast(f, start, n, i);
    }
  }

  /** Records in strictly increasing day order. */
  predicate DaysIncrease(stats: seq<DayStat>)
  {
    forall i, j :: 0 <= i < j < |stats| ==> stats[i].asOf < stats[j].asOf
  }

  /** A record for a day later than all others keeps the order when appended. */
  lemma DaysIncreaseSnoc(stats: seq<DayStat>, r: DayStat)
    requires DaysIncrease(stats)
    requires forall i :: 0 <= i < |stats| ==> stats[i].asOf < r.asOf
    ensures DaysIncrease(stats + [r])
  {
    forall i, j | 0 <= i < j < |stats| + 1
      ensures (stats + [r])[i].asOf < (stats + [r])[j].asOf
    {
      assert (stats + [r])[i] == stats[i];
    }
  }

  /** The collected records are in strictly increasing day order. */
  lemma {:induction false} CollectOrdered(f: Day -> Option<DayStat>, start: Day, n: nat)
    requires Dated(f)
    ensures DaysIncrease(Collect(f, start, n))
  {
    if n > 0 {
      CollectOrdered(f, start, n - 1);
      var prev, last := Collect(f, start, n - 1), f(start + n - 1);
      assert Collect(f, start, n) == prev + (if last.Some? then [last.value] else []);
      if last.Some? {
        forall i | 0 <= i < |prev|
          ensures prev[i].asOf < last.value.asOf
        {
          CollectAt(f, start, n - 1, i);
        }
        DaysIncreaseSnoc(prev, last.value);
      }
    }
  }

  /** When the first day has a record, it is the first record collected. */
  lemma {:induction false} CollectFirst(f: Day -> Option<DayStat>, start: Day, n: nat)
    requires n > 0 && f(start).Some?
    ensures Collect(f, start, n) != [] && Collect(f, start, n)[0] == f(start).value
  {
    if n == 1 {
      assert Collect(f, start, 0) == [];
    } else {
      CollectFirst(f, start, n - 1);
      CollectPrefix(f, start, n, 0);
    }
  }

  /** The record of each day of the range, when there is one, is among the collected records. */
  lemma {:induction false} CollectHas(f: Day -> Option<DayStat>, start: Day, n: nat, day: Day)
    requires start <= day < start + n
    ensures f(day).Some? ==> f(day).value in Collect(f, start, n)
  {
    var prev, last := Collect(f, start, n - 1), f(start + n - 1);
    var tail := if last.Some? then [last.value] else [];
    assert Collect(f, start, n) == prev + tail;
    if f(day).Some? {
      if day < start + n - 1 {
        CollectHas(f, start, n - 1, day);
        assert f(day).value in prev;
      } else {
        assert f(day).value in tail;
      }
    }
  }

  /** The record function of a pair of series dates each record by its own day. */
  lemma DayRecordDated(dev: seq<Done>, prod: seq<Done>, est: Option<string>)
    ensures Dated(DayRecord(dev, prod, est))
  {
  }

  /** Every record of `StatsFrom` is the record of a day in range. */
  lemma StatsFromIn(dev: seq<Done>, prod: seq<Done>, start: Day, n: nat, est: Option<string>)
    ensures forall i :: 0 <= i < |StatsFrom(dev, prod, start, n, est)| ==>
      start <= StatsFrom(dev, prod, start, n, est)[i].asOf < start + n &&
      StatOn(dev, prod, StatsFrom(dev, prod, start, n, est)[i].asOf, est) == Some(StatsFrom(dev, prod, start, n, est)[i])
  {
    var f := DayRecord(dev, prod, est);
    DayRecordDated(dev, prod, est);
    forall i | 0 <= i < |Collect(f, start, n)|
      ensures start <= Collect(f, start, n)[i].asOf < start + n &&
        StatOn(dev, prod, Collect(f, start, n)[i].asOf, est) == Some(Collect(f, start, n)[i])
    {
      CollectAt(f, start, n, i);
    }
  }

  /** The records of `StatsFrom` are in strictly increasing day order. */
  lemma StatsFromOrdered(dev: seq<Done>, prod: seq<Done>, start: Day, n: nat, est: Option<string>)
    ensures DaysIncrease(StatsFrom(dev, prod, start, n, est))
  {
    DayRecordDated(dev, prod, est);
    CollectOrdered(DayRecord(dev, prod, est), start, n);
  }

  /** Every day in range with evidence has its record in `StatsFrom`. */
  lemma StatsFromAll(dev: seq<Done>, prod: seq<Done>, start: Day, n: nat, est: Option<string>)
    ensures forall day :: start <= day < start + n && StatOn(dev, prod, day, est).Some? ==>
      StatOn(dev, prod, day, est).value in StatsFrom(dev, prod, start, n, est)
  {
    var f := DayRecord(dev, prod, est);
    forall day | start <= day < start + n && StatOn(dev, prod, day, est).Some?
      ensures StatOn(dev, prod, day, est).value in Collect(f, start, n)
    {
      CollectHas(f, start, n, day);
    }
  }

  /** Sample sizes never shrink from one emitted record to a later one. */
  lemma SampleSizesGrow(dev: seq<Done>, prod: seq<Done>, since: Arg<Option<Day>>, until: Day,
                        est: Option<string>, i: nat, j: nat)
    requires i < j < |StatsOf(dev, prod, since, until, est)|
    ensures var stats := StatsOf(dev, prod, since, until, est);
      stats[i].asOf < stats[j].asOf &&
      stats[i].DevSize() <= stats[j].DevSize() && stats[i].ProdSize() <= stats[j].ProdSize()
  {
    if dev == [] && prod == [] {
      assert false;
    } else {
      var start := StartDay(dev, prod, since);
      var stats := StatsFrom(dev, prod, start, DayCount(start, until), est);
      StatsFromIn(dev, prod, start, DayCount(start, until), est);
      StatsFromOrdered(dev, prod, start, DayCount(start, until), est);
      UpToGrows(dev, stats[i].asOf, stats[j].asOf);
      UpToGrows(prod, stats[i].asOf, stats[j].asOf);
    }
  }

  /**
   * When `since` is not given and the range is not empty, the first record
   * is for the day of the earliest completion.
   */
  lemma FirstDayHasEvidence(dev: seq<Done>, prod: seq<Done>, until: Day, est: Option<string>)
    requires dev != [] || prod != []
    ensures var start := StartDay(dev, prod, Omitted);
            var stats := StatsOf(dev, prod, Omitted, until, est);
            start < until ==> stats != [] && stats[0].asOf == start
  {
    var start := StartDay(dev, prod, Omitted);
    if start < until {
      if dev != [] && dev[0].on == start {
        UpToHas(dev, 0, start);
      } else {
        UpToHas(prod, 0, start);
      }
      var f := DayRecord(dev, prod, est);
      assert StatsOf(dev, prod, Omitted, until, est) == Collect(f, start, until - start);
      assert f(start).Some?;
      CollectFirst(f, start, until - start);
    }
  }

  /**
   * Each series' evidence on a record's day is the work-day counts of the
   * series' completions dated on or before that day.
   */
  lemma EvidenceOfRecord(dev: seq<Done>, prod: seq<Done>, since: Arg<Option<Day>>, until: Day,
                         est: Option<string>, i: nat)
    requires i < |StatsOf(dev, prod, since, until, est)|
    ensures var r := StatsOf(dev, prod, since, until, est)[i];
      r.effortEst == est &&
      r.DevSize() == |UpTo(dev, r.asOf)| && r.ProdSize() == |UpTo(prod, r.asOf)| &&
      r.DevSize() + r.ProdSize() > 0 &&
      (r.dev.Some? ==> forall w :: w in r.dev.value ==> exists d :: d in dev && d.on <= r.asOf && d.workdays == w) &&
      (r.prod.Some? ==> forall w :: w in r.prod.value ==> exists d :: d in prod && d.on <= r.asOf && d.workdays == w)
  {
    if dev == [] && prod == [] {
      assert false;
    } else {
      var start := StartDay(dev, prod, since);
      var stats := StatsFrom(dev, prod, start, DayCount(start, until), est);
      StatsFromIn(dev, prod, start, DayCount(start, until), est);
      UpToFrom(dev, stats[i].asOf);
      UpToFrom(prod, stats[i].asOf);
    }
  }
}
