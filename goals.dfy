/** The body of `PUT /goals/:email` applied to one goal: `end_goal` is
    overwritten, `daily_tasks` merged two levels deep (date, then task) and
    shallowly at the task's details, `roadmap` and `progress_report` merged
    shallowly. */
module Goals {
  import opened Records

  /** A stored day, or the `{}` the handler creates for a new date. */
  function DayOf(tasks: DailyTasks, date: string): DayTasks {
    if date in tasks then tasks[date] else map[]
  }

  /** A stored task, or the `{}` the handler creates for a new task. */
  function DetailsOf(day: DayTasks, task: string): Details {
    if task in day then day[task] else map[]
  }

  /** One day after the inner loop: every incoming task's details are
      `Object.assign`ed onto the stored ones. */
  function MergedDay(stored: DayTasks, incoming: DayTasks): DayTasks {
    map t | t in stored.Keys + incoming.Keys ::
      if t in incoming then Assign(DetailsOf(stored, t), incoming[t]) else stored[t]
  }

  /** All days after the outer loop. */
  function MergedTasks(stored: DailyTasks, incoming: DailyTasks): DailyTasks {
    map d | d in stored.Keys + incoming.Keys ::
      if d in incoming then MergedDay(DayOf(stored, d), incoming[d]) else stored[d]
  }

  /** The two-level merge: every incoming (date, task, key) takes the incoming
      value, every stored one the input does not name keeps its value, and
      each date holds exactly the stored and the incoming tasks (an incoming
      task with empty details included); no date, task or details key
      appears that neither side has. */
  lemma MergedTasksCorrect(stored: DailyTasks, incoming: DailyTasks)
    ensures var r := MergedTasks(stored, incoming);
      && r.Keys == stored.Keys + incoming.Keys
      && (forall d, t, k :: d in incoming && t in incoming[d] && k in incoming[d][t] ==>
            t in r[d] && k in r[d][t] && r[d][t][k] == incoming[d][t][k])
      && (forall d, t, k ::
            && d in stored && t in stored[d] && k in stored[d][t]
            && !(d in incoming && t in incoming[d] && k in incoming[d][t])
            ==> t in r[d] && k in r[d][t] && r[d][t][k] == stored[d][t][k])
      && (forall d :: d in r ==> r[d].Keys == DayOf(stored, d).Keys + DayOf(incoming, d).Keys)
      && (forall d, t :: d in r && t in r[d] ==>
            r[d][t].Keys == DetailsOf(DayOf(stored, d), t).Keys + DetailsOf(DayOf(incoming, d), t).Keys)
  {
  }

  /** The nested `for...in` loops of `PUT /goals/:email`, visiting dates and
      tasks in whatever order the request object yields them. */
  method MergeDailyTasks(stored: DailyTasks, incoming: DailyTasks) returns (tasks: DailyTasks)
    ensures tasks == MergedTasks(stored, incoming)
  {
    tasks := stored;
    var dates := incoming.Keys;
    ghost var done: set<string> := {};
    while dates != {}
      invariant dates !! done && dates + done == incoming.Keys
      invariant tasks.Keys == stored.Keys + done
      invariant forall d :: d in done ==> tasks[d] == MergedDay(DayOf(stored, d), incoming[d])
      invariant forall d :: d in stored && d !in done ==> tasks[d] == stored[d]
      decreases dates
    {
      var date :| date in dates;
      assert DayOf(tasks, date) == DayOf(stored, date);
      var day := MergeDay(DayOf(tasks, date), incoming[date]);
      tasks := tasks[date := day];
      dates, done := dates - {date}, done + {date};
    }
    MergedTasksExt(stored, incoming, tasks);
  }

  /** The inner loop, over the tasks of one incoming date. */
  method MergeDay(stored: DayTasks, incoming: DayTasks) returns (day: DayTasks)
    ensures day == MergedDay(stored, incoming)
  {
    day := stored;
    var names := incoming.Keys;
    ghost var done: set<string> := {};
    while names != {}
      invariant names !! done && names + done == incoming.Keys
      invariant day.Keys == stored.Keys + done
      invariant forall t :: t in done ==> day[t] == Assign(DetailsOf(stored, t), incoming[t])
      invariant forall t :: t in stored && t !in done ==> day[t] == stored[t]
      decreases names
    {
      var task :| task in names;
      assert DetailsOf(day, task) == DetailsOf(stored, task);
      day := day[task := Assign(DetailsOf(day, task), incoming[task])];
      names, done := names - {task}, done + {task};
    }
    MergedDayExt(stored, incoming, day);
  }

  /** A map that agrees with `MergedDay` key by key is `MergedDay`. */
  lemma MergedDayExt(stored: DayTasks, incoming: DayTasks, day: DayTasks)
    requires day.Keys == stored.Keys + incoming.Keys
    requires forall t :: t in incoming ==> day[t] == Assign(DetailsOf(stored, t), incoming[t])
    requires forall t :: t in stored && t !in incoming ==> day[t] == stored[t]
    ensures day == MergedDay(stored, incoming)
  {
  }

  /** A map that agrees with `MergedTasks` key by key is `MergedTasks`. */
  lemma MergedTasksExt(stored: DailyTasks, incoming: DailyTasks, tasks: DailyTasks)
    requires tasks.Keys == stored.Keys + incoming.Keys
    requires forall d :: d in incoming ==> tasks[d] == MergedDay(DayOf(stored, d), incoming[d])
    requires forall d :: d in stored && d !in incoming ==> tasks[d] == stored[d]
    ensures tasks == MergedTasks(stored, incoming)
  {
  }

  /** The goal after the handler's field updates, in the handler's order. */
  function ApplyGoalUpdate(g: Goal, req: GoalRequest): Goal {
    Goal(
      if req.dailyTasks.Some? then MergedTasks(g.dailyTasks, req.dailyTasks.value) else g.dailyTasks,
      if req.roadmap.Some? then Assign(g.roadmap, req.roadmap.value) else g.roadmap,
      if req.progressReport.Some? then Assign(g.progressReport, req.progressReport.value) else g.progressReport,
      if req.endGoal.Some? then req.endGoal.value else g.endGoal)
  }

  /** The field updates of `PUT /goals/:email` on the goal object. */
  method UpdateGoal(goal: Goal, req: GoalRequest) returns (updated: Goal)
    ensures updated == ApplyGoalUpdate(goal, req)
  {
    updated := goal;
    if req.endGoal.Some? {
      updated := updated.(endGoal := req.endGoal.value);
    }
    if req.dailyTasks.Some? {
      var merged := MergeDailyTasks(updated.dailyTasks, req.dailyTasks.value);
      updated := updated.(dailyTasks := merged);
    }
    if req.roadmap.Some? {
      updated := updated.(roadmap := Assign(updated.roadmap, req.roadmap.value));
    }
    if req.progressReport.Some? {
      updated := updated.(progressReport := Assign(updated.progressReport, req.progressReport.value));
    }
  }

  /** A goal update overwrites `end_goal` only when the body carries it,
      merges `roadmap` and `progress_report` shallowly (incoming keys win,
      stored keys stay), and merges `daily_tasks` two levels deep; an
      omitted field is left as it was. */
  lemma ApplyGoalUpdateCorrect(g: Goal, req: GoalRequest)
    ensures var r := ApplyGoalUpdate(g, req);
      && r.endGoal == req.endGoal.GetOr(g.endGoal)
      && r.roadmap.Keys == g.roadmap.Keys + req.roadmap.GetOr(map[]).Keys
      && (forall k :: k in req.roadmap.GetOr(map[]) ==> r.roadmap[k] == req.roadmap.value[k])
      && (forall k :: k in g.roadmap && k !in req.roadmap.GetOr(map[]) ==> r.roadmap[k] == g.roadmap[k])
      && r.progressReport.Keys == g.progressReport.Keys + req.progressReport.GetOr(map[]).Keys
      && (forall k :: k in req.progressReport.GetOr(map[]) ==> r.progressReport[k] == req.progressReport.value[k])
      && (forall k :: k in g.progressReport && k !in req.progressReport.GetOr(map[]) ==>
            r.progressReport[k] == g.progressReport[k])
      && r.dailyTasks == MergedTasks(g.dailyTasks, req.dailyTasks.GetOr(map[]))
  {
    if req.dailyTasks.None? {
      var r := MergedTasks(g.dailyTasks, map[]);
      assert r == g.dailyTasks by {
        forall d | d in g.dailyTasks ensures r[d] == g.dailyTasks[d] { }
      }
    }
  }

  /** A first update of a goal without tasks stores exactly what it names. */
  lemma FirstTaskStored(date: string, task: string, details: Details)
    ensures MergedTasks(map[], map[date := map[task := details]]) == map[date := map[task := details]]
  {
    assert Assign(map[], details) == details;
    assert MergedDay(map[], map[task := details]) == map[task := details];
  }

  /** A second update naming another task of the same day keeps the first
      task and its details. */
  lemma SecondTaskKeepsFirst(date: string, task1: string, task2: string, details1: Details, details2: Details)
    requires task1 != task2
    ensures var day1 := MergedTasks(map[], map[date := map[task1 := details1]]);
      var day2 := MergedTasks(day1, map[date := map[task2 := details2]]);
      && day2.Keys == {date}
      && day2[date].Keys == {task1, task2}
      && day2[date][task1] == details1
      && day2[date][task2] == details2
  {
    FirstTaskStored(date, task1, details1);
    var first, second := map[date := map[task1 := details1]], map[date := map[task2 := details2]];
    assert Assign(map[], details2) == details2;
    assert MergedDay(first[date], second[date]) == map[task1 := details1, task2 := details2];
  }
}
