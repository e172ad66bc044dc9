/**
 * The estimate listings of stackpm/estimates.py: the distinct values of an
 * estimate column over Task or Iteration rows, optionally narrowed to
 * one user or team (an equality filter) or to a collection of them (a
 * membership filter).
 *
 * A query over a table is a filter over the sequence of its rows; the
 * `GROUP BY` of the column becomes "each distinct value once".
 */
module Estimates {
  import opened Common
  import opened Models

  // ---------------------------------------------------------------------
  // _est

  /** Whether a row passes the optional extra filter (`None`: no filter). */
  predicate Selects<R>(filter: Option<R -> bool>, row: R)
  {
    filter.None? || filter.value(row)
  }

  /** The column's value in each selected row, in row order. */
  function Projected<R, T(==,!new)>(rows: seq<R>, col: R -> T, filter: Option<R -> bool>): (vals: seq<T>)
    ensures forall v :: v in vals <==>
      exists i :: 0 <= i < |rows| && Selects(filter, rows[i]) && col(rows[i]) == v
    decreases |rows|
  {
    if rows == [] then []
    else
      var init := Projected(rows[..|rows| - 1], col, filter);
      var last := rows[|rows| - 1];
      assert forall i :: 0 <= i < |rows| - 1 ==> rows[..|rows| - 1][i] == rows[i];
      if Selects(filter, last) then init + [col(last)] else init
  }

  /** No value occurs twice in `s`. */
  predicate NoDuplicates<T(==)>(s: seq<T>)
  {
    forall i, j :: 0 <= i < j < |s| ==> s[i] != s[j]
  }

  /** A nonempty listing has a member: its head. */
  lemma HeadMember<T>(s: seq<T>)
    ensures s != [] ==> s[0] in s
  {
  }

  /** The values of `vals`, each once, in order of first occurrence. */
  function Distinct<T(==,!new)>(vals: seq<T>): (r: seq<T>)
    ensures NoDuplicates(r)
    ensures forall v :: v in r <==> v in vals
    decreases |vals|
  {
    if vals == [] then []
    else
      var init := Distinct(vals[..|vals| - 1]);
      var last := vals[|vals| - 1];
      assert vals == vals[..|vals| - 1] + [last];
      if last in init then init else init + [last]
  }

  /**
   * `_est` once its extra filter is applied (`query.filter(xtra_filter)`):
   * the distinct values of `col` over the rows that pass it; each value
   * reported once, `None` included.
   */
  function Est<R, T(==,!new)>(rows: seq<R>, col: R -> T, filter: Option<R -> bool>): (r: seq<T>)
    ensures NoDuplicates(r)
    ensures forall v :: v in r <==>
      exists i :: 0 <= i < |rows| && Selects(filter, rows[i]) && col(rows[i]) == v
  {
    Distinct(Projected(rows, col, filter))
  }

  /**
   * The extra clause a listing builds, as SQLAlchemy sees it: an `==`
   * comparison with a value, or an `IS NULL` test (`== None`). `test`
   * says which rows the clause selects once applied.
   */
  datatype Clause<!R> = Equals(test: R -> bool) | IsNull(test: R -> bool)

  /** The exceptions the listings raise as written. */
  datatype EstError = TypeError | NotImplementedError

  /**
   * Python's truth value of a clause (`if xtra_filter:`): an `==` clause
   * compares the hashes of its two operands, a column and a bound value,
   * and so is false; an `IS NULL` clause has no truth value and raises
   * TypeError.
   */
  function Truth<R>(c: Clause<R>): Result<bool, EstError>
  {
    match c
    case Equals(_) => Success(false)
    case IsNull(_) => Failure(TypeError)
  }

  /**
   * `_est` as written: the clause is applied only when its truth value is
   * true, which no clause's is, so the listing is never filtered; an
   * `IS NULL` clause raises instead.
   */
  function EstAsWritten<R, T(==,!new)>(rows: seq<R>, col: R -> T, xtra: Option<Clause<R>>)
    : (r: Result<seq<T>, EstError>)
    ensures r.Failure? <==> xtra.Some? && xtra.value.IsNull?
    ensures r.Success? ==> NoDuplicates(r.value)
    ensures r.Success? ==> forall v :: v in r.value <==> exists i :: 0 <= i < |rows| && col(rows[i]) == v
  {
    if xtra.None? then Success(Est(rows, col, None))
    else
      var c := xtra.value;
      match Truth(c)
      case Failure(e) => Failure(e)
      case Success(b) => Success(Est(rows, col, if b then Some(c.test) else None))
  }

  // ---------------------------------------------------------------------
  // task_efforts

  /**
   * The `user` argument of `task_efforts` when it is passed: one user (a
   * User, or `None`), or any other value, taken as a collection of users.
   * Users are identified by their row id.
   */
  datatype UserChoice = OneUser(user: Option<nat>) | UserCollection(users: set<nat>)

  /** The extra filter `task_efforts` builds from its `user` argument. */
  function UserFilter(user: Arg<UserChoice>): Option<TaskRecord -> bool>
  {
    match user
    case Omitted => None
    case Passed(OneUser(u)) => Some((t: TaskRecord) => Some(t.userId) == u)
    case Passed(UserCollection(us)) => Some((t: TaskRecord) => t.userId in us)
  }

  /** Those Task rows `task_efforts(user)` looks at, stated per row. */
  predicate OfUser(user: Arg<UserChoice>, t: TaskRecord)
  {
    match user
    case Omitted => true
    case Passed(OneUser(u)) => u == Some(t.userId)
    case Passed(UserCollection(us)) => t.userId in us
  }

  /**
   * `task_efforts` with its filter applied: every `effort_est` of a Task of
   * the chosen user(s), each once; without a `user` argument, of every
   * Task. As `user_id` is never `NULL`, `user=None` selects no Task
   * (NoUserNoEfforts).
   */
  function TaskEfforts(tasks: seq<TaskRecord>, user: Arg<UserChoice>): (r: seq<Option<string>>)
    ensures NoDuplicates(r)
    ensures forall v :: v in r <==>
      exists i :: 0 <= i < |tasks| && OfUser(user, tasks[i]) && tasks[i].effortEst == v
  {
    var filter := UserFilter(user);
    assert forall t :: Selects(filter, t) == OfUser(user, t);
    Est(tasks, (t: TaskRecord) => t.effortEst, filter)
  }

  /**
   * With the filter applied, as `user_id` is never `NULL`, asking for the
   * efforts of user `None` lists nothing.
   */
  lemma NoUserNoEfforts(tasks: seq<TaskRecord>)
    ensures TaskEfforts(tasks, Passed(OneUser(None))) == []
  {
    var r := TaskEfforts(tasks, Passed(OneUser(None)));
    HeadMember(r);
  }

  /**
   * The clause `task_efforts` builds as written: `Task.user == user` for
   * one user, an `IS NULL` test for `None`; for a collection,
   * `Task.user.in_(user)` raises NotImplementedError, as `in_` is not
   * supported on a relationship.
   */
  function UserClause(user: Arg<UserChoice>): Result<Option<Clause<TaskRecord>>, EstError>
  {
    match user
    case Omitted => Success(None)
    case Passed(OneUser(None)) => Success(Some(IsNull((t: TaskRecord) => false)))
    case Passed(OneUser(Some(u))) => Success(Some(Equals((t: TaskRecord) => t.userId == u)))
    case Passed(UserCollection(_)) => Failure(NotImplementedError)
  }

  /**
   * `task_efforts` as written: it raises for `user=None` and for a
   * collection of users; otherwise it lists every Task's `effort_est`,
   * each once, whatever user was asked for.
   */
  function TaskEffortsAsWritten(tasks: seq<TaskRecord>, user: Arg<UserChoice>)
    : (r: Result<seq<Option<string>>, EstError>)
    ensures r.Failure? <==> user == Passed(OneUser(None)) || (user.Passed? && user.value.UserCollection?)
    ensures r.Success? ==> NoDuplicates(r.value)
    ensures r.Success? ==> forall v :: v in r.value <==> exists i :: 0 <= i < |tasks| && tasks[i].effortEst == v
  {
    match UserClause(user)
    case Failure(e) => Failure(e)
    case Success(xtra) => EstAsWritten(tasks, (t: TaskRecord) => t.effortEst, xtra)
  }

  /** A Task of user 2 estimated "x". */
  function SecondUsersTask(): TaskRecord
  {
    TaskRecord(2, "T-2", "task", 0, 0, None, 2, None, None, None, Some("x"),
               None, None, None, None, None)
  }

  /**
   * Asked for the efforts of user 1, as written `task_efforts` still lists
   * the estimate of a Task of user 2; with the filter applied it does not.
   */
  lemma OtherUserListed()
    ensures TaskEffortsAsWritten([SecondUsersTask()], Passed(OneUser(Some(1)))).Success?
    ensures Some("x") in TaskEffortsAsWritten([SecondUsersTask()], Passed(OneUser(Some(1)))).value
    ensures TaskEfforts([SecondUsersTask()], Passed(OneUser(Some(1)))) == []
  {
    var tasks := [SecondUsersTask()];
    assert tasks[0].effortEst == Some("x");
    var r := TaskEfforts(tasks, Passed(OneUser(Some(1))));
    assert !OfUser(Passed(OneUser(Some(1))), tasks[0]);
    assert forall v :: v !in r;
  }

  // ---------------------------------------------------------------------
  // _iter_est, iteration_efforts, iteration_values

  /** The `team` argument of `_iter_est` when it is passed: one team (or `None`), or a collection. */
  datatype TeamChoice = OneTeam(team: Option<string>) | TeamCollection(teams: set<string>)

  /**
   * The clause `_iter_est` passes on as written: `Iteration.team == team`
   * for one team, an `IS NULL` test for `None`; a team collection builds
   * its membership clause into an unused local, so no clause is passed on
   * for it.
   */
  function TeamClauseAsWritten(team: Arg<TeamChoice>): Option<Clause<IterationRecord>>
  {
    match team
    case Omitted => None
    case Passed(OneTeam(None)) => Some(IsNull((i: IterationRecord) => i.team.None?))
    case Passed(OneTeam(Some(t))) => Some(Equals((i: IterationRecord) => i.team == Some(t)))
    case Passed(TeamCollection(_)) => None
  }

  /**
   * `_iter_est` as written: it raises for `team=None`; otherwise it lists
   * the value of `col` of every Iteration, each once, whatever team was
   * asked for.
   */
  function IterEstAsWritten(iterations: seq<IterationRecord>, col: IterationRecord -> Option<string>,
                            team: Arg<TeamChoice>): (r: Result<seq<Option<string>>, EstError>)
    ensures r.Failure? <==> team == Passed(OneTeam(None))
    ensures r.Success? ==> NoDuplicates(r.value)
    ensures r.Success? ==> forall v :: v in r.value <==> exists i :: 0 <= i < |iterations| && col(iterations[i]) == v
  {
    EstAsWritten(iterations, col, TeamClauseAsWritten(team))
  }

  /** As written, a team collection lists the estimates of every Iteration, whatever its team. */
  lemma TeamCollectionIgnored(iterations: seq<IterationRecord>, col: IterationRecord -> Option<string>,
                              teams: set<string>)
    ensures IterEstAsWritten(iterations, col, Passed(TeamCollection(teams)))
         == IterEstAsWritten(iterations, col, Omitted)
  {
  }

  /** As written, one named team lists the estimates of every Iteration too. */
  lemma OneTeamIgnored(iterations: seq<IterationRecord>, col: IterationRecord -> Option<string>,
                       team: string)
    ensures IterEstAsWritten(iterations, col, Passed(OneTeam(Some(team))))
         == IterEstAsWritten(iterations, col, Omitted)
  {
  }

  /**
   * A witness: asked for team "a" only, the as-written listing still
   * reports the effort estimate of an Iteration of team "b".
   */
  lemma OtherTeamListed()
    ensures var it := IterationRecord(1, "I-1", "sprint", 0, 0, 0, Some("x"), None, Some("b"));
            var r := IterEstAsWritten([it], (i: IterationRecord) => i.effortEst,
                                      Passed(TeamCollection({"a"})));
            r.Success? && Some("x") in r.value
  {
    var it := IterationRecord(1, "I-1", "sprint", 0, 0, 0, Some("x"), None, Some("b"));
    var col := (i: IterationRecord) => i.effortEst;
    assert col([it][0]) == Some("x");
  }

  /** The Iteration rows `_iter_est(col, team)` is meant to look at, stated per row. */
  predicate OfTeam(team: Arg<TeamChoice>, i: IterationRecord)
  {
    match team
    case Omitted => true
    case Passed(OneTeam(t)) => i.team == t
    case Passed(TeamCollection(ts)) => i.team.Some? && i.team.value in ts
  }

  /** The extra filter `_iter_est` is meant to pass on: membership for a collection. */
  function TeamFilter(team: Arg<TeamChoice>): Option<IterationRecord -> bool>
  {
    match team
    case Omitted => None
    case Passed(OneTeam(t)) => Some((i: IterationRecord) => i.team == t)
    case Passed(TeamCollection(ts)) => Some((i: IterationRecord) => i.team.Some? && i.team.value in ts)
  }

  /**
   * `_iter_est` with the membership filter applied: every value of `col`
   * over the Iterations of the chosen team(s), each once. An Iteration
   * without a team is never in a collection (SQL `IN` does not match
   * `NULL`).
   */
  function IterEst(iterations: seq<IterationRecord>, col: IterationRecord -> Option<string>,
                   team: Arg<TeamChoice>): (r: seq<Option<string>>)
    ensures NoDuplicates(r)
    ensures forall v :: v in r <==>
      exists i :: 0 <= i < |iterations| && OfTeam(team, iterations[i]) && col(iterations[i]) == v
  {
    var filter := TeamFilter(team);
    assert forall it :: Selects(filter, it) == OfTeam(team, it);
    Est(iterations, col, filter)
  }

  /** With the membership filter, the Iteration of team "b" is not reported for team "a". */
  lemma OtherTeamNotListed()
    ensures var it := IterationRecord(1, "I-1", "sprint", 0, 0, 0, Some("x"), None, Some("b"));
            IterEst([it], (i: IterationRecord) => i.effortEst, Passed(TeamCollection({"a"}))) == []
  {
    var it := IterationRecord(1, "I-1", "sprint", 0, 0, 0, Some("x"), None, Some("b"));
    var team := Passed(TeamCollection({"a"}));
    assert "b" !in {"a"};
    assert !OfTeam(team, [it][0]);
    var r := IterEst([it], (i: IterationRecord) => i.effortEst, team);
    assert forall v :: v !in r;
  }

  /** `iteration_efforts` with its filter applied: the distinct `effort_est` values over the Iterations of the chosen team(s). */
  function IterationEfforts(iterations: seq<IterationRecord>, team: Arg<TeamChoice>): (r: seq<Option<string>>)
    ensures NoDuplicates(r)
    ensures forall v :: v in r <==>
      exists i :: 0 <= i < |iterations| && OfTeam(team, iterations[i]) && iterations[i].effortEst == v
  {
    IterEst(iterations, (i: IterationRecord) => i.effortEst, team)
  }

  /** `iteration_values` with its filter applied: the distinct `value_est` values over the Iterations of the chosen team(s). */
  function IterationValues(iterations: seq<IterationRecord>, team: Arg<TeamChoice>): (r: seq<Option<string>>)
    ensures NoDuplicates(r)
    ensures forall v :: v in r <==>
      exists i :: 0 <= i < |iterations| && OfTeam(team, iterations[i]) && iterations[i].valueEst == v
  {
    IterEst(iterations, (i: IterationRecord) => i.valueEst, team)
  }
}
