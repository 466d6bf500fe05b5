/** The records the server keeps per user, the leaderboard entry, the request
    bodies of the two PUT routes and the response of every route. */
module Records {
  import opened Json

  /** Free-form fields of one task on one day. */
  type Details = map<string, Value>
  /** Task name to task details, for one day. */
  type DayTasks = map<string, Details>
  /** Date to that day's tasks. */
  type DailyTasks = map<string, DayTasks>

  datatype Goal = Goal(
    dailyTasks: DailyTasks,
    roadmap: map<string, Value>,
    progressReport: map<string, Value>,
    endGoal: Value)

  datatype UserRecord = UserRecord(
    goals: map<string, Goal>,
    xp: map<string, int>,
    heatMap: map<string, int>,
    maxQuestionsInADay: int,
    totalQuestions: int,
    age: Value,
    profession: Value)

  /** A user record without its goals: what `GET /user/:email` returns. */
  datatype UserStats = UserStats(
    xp: map<string, int>,
    heatMap: map<string, int>,
    maxQuestionsInADay: int,
    totalQuestions: int,
    age: Value,
    profession: Value)

  datatype Entry = Entry(email: string, totalXp: int)

  /** Body of `PUT /goals/:email`; `None` marks a field the body omits. */
  datatype GoalRequest = GoalRequest(
    goalKeyword: Option<string>,
    dailyTasks: Option<DailyTasks>,
    roadmap: Option<map<string, Value>>,
    progressReport: Option<map<string, Value>>,
    endGoal: Option<Value>)

  /** Body of `PUT /user/:email`; `None` marks a field the body omits. */
  datatype UserRequest = UserRequest(
    xp: Option<map<string, int>>,
    heatMap: Option<map<string, int>>,
    maxQuestionsInADay: Option<int>,
    totalQuestions: Option<int>,
    age: Option<Value>,
    profession: Option<Value>)

  /** What a route answers: a status code and, on success, the data it renders. */
  datatype Response<T> = Ok(body: T) | BadRequest | NotFound {
    function Status(): int {
      match this
      case Ok(_) => 200
      case BadRequest => 400
      case NotFound => 404
    }
  }

  /** The record `initializeUser` creates for an unknown email. */
  function NewUser(): UserRecord {
    UserRecord(map[], map[], map[], 0, 0, Null, Null)
  }

  /** The goal `PUT /goals/:email` creates for an unknown keyword. */
  function NewGoal(): Goal {
    Goal(map[], map[], map[], Text(""))
  }

  /** The database after `initializeUser(email)`: get-or-create. */
  function WithUser(db: map<string, UserRecord>, email: string): (r: map<string, UserRecord>)
    ensures r.Keys == db.Keys + {email}
    ensures forall e :: e in db ==> r[e] == db[e]
    ensures email !in db ==> r[email] == NewUser()
  {
    if email in db then db else db[email := NewUser()]
  }

  /** Getting or creating a user twice is the same as doing it once. */
  lemma WithUserIdempotent(db: map<string, UserRecord>, email: string)
    ensures WithUser(WithUser(db, email), email) == WithUser(db, email)
  {
  }

  /** The stats projection of a record: everything but `goals`. */
  function Stats(u: UserRecord): UserStats {
    UserStats(u.xp, u.heatMap, u.maxQuestionsInADay, u.totalQuestions, u.age, u.profession)
  }

  /** `Object.assign(target, source)` on a flat object: keys of `source` win,
      every other key of `target` stays. */
  function Assign<V>(target: map<string, V>, source: map<string, V>): map<string, V> {
    target + source
  }

  /** `Assign` keeps every key of both sides, the source's value winning. */
  lemma AssignCorrect<V>(target: map<string, V>, source: map<string, V>)
    ensures var r := Assign(target, source);
      && r.Keys == target.Keys + source.Keys
      && (forall k :: k in source ==> r[k] == source[k])
      && (forall k :: k in target && k !in source ==> r[k] == target[k])
  {
  }
}
