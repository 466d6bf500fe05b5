/** The route handlers of the server as functions of the user database: the
    two read-only projections and the database each PUT route leaves behind.
    `Server.Store` runs the same handlers step by step on its own state. */
module Routes {
  import opened Json
  import opened Records
  import opened Goals

  /** An optional keyword that is present and non-empty, so truthy. */
  predicate Given(keyword: Option<string>) {
    keyword.Some? && keyword.value != ""
  }

  /** `if (!goalKeyword)`: an absent or empty keyword is rejected. */
  predicate HasKeyword(req: GoalRequest) {
    Given(req.goalKeyword)
  }

  /** `GET /goals/:email/:goalKeyword?`: 404 for an unknown email, or for a
      keyword the user has no goal under; otherwise that one goal, or all
      goals when no keyword is given. A known user always has a goals
      object, so a user without goals gets 200 and an empty map. */
  function GetGoals(db: map<string, UserRecord>, email: string, keyword: Option<string>): (r: Response<map<string, Goal>>)
    ensures r.Ok? || r.NotFound?
    ensures r.NotFound? <==> email !in db || (Given(keyword) && keyword.value !in db[email].goals)
    ensures r.Ok? && Given(keyword) ==> r.body == map[keyword.value := db[email].goals[keyword.value]]
    ensures r.Ok? && !Given(keyword) ==> r.body == db[email].goals
  {
    if email !in db then NotFound
    else if Given(keyword) then
      if keyword.value in db[email].goals then Ok(map[keyword.value := db[email].goals[keyword.value]])
      else NotFound
    else Ok(db[email].goals)
  }

  /** `GET /user/:email`: 404 for an unknown email (no record is created),
      otherwise the record with `goals` stripped. */
  function GetUser(db: map<string, UserRecord>, email: string): (r: Response<UserStats>)
    ensures r.Ok? || r.NotFound?
    ensures r.NotFound? <==> email !in db
    ensures r.Ok? ==> r.body == Stats(db[email])
  {
    if email in db then Ok(Stats(db[email])) else NotFound
  }

  /** The stored goal, or a fresh default one. */
  function GoalOrNew(goals: map<string, Goal>, keyword: string): Goal {
    if keyword in goals then goals[keyword] else NewGoal()
  }

  /** `PUT /goals/:email`: the response and the database afterwards. */
  function PutGoalRoute(db: map<string, UserRecord>, email: string, req: GoalRequest)
    : (Response<Goal>, map<string, UserRecord>)
  {
    if !HasKeyword(req) then (BadRequest, db)
    else
      var kw := req.goalKeyword.value;
      var user := WithUser(db, email)[email];
      var goal := ApplyGoalUpdate(GoalOrNew(user.goals, kw), req);
      (Ok(goal), WithUser(db, email)[email := user.(goals := user.goals[kw := goal])])
  }

  /** A goal update is 400 and changes nothing exactly when the keyword is
      missing. Otherwise it creates the user if needed, creates the goal only
      if it is absent (an existing goal is updated, not reset), touches no
      other goal and no other user, leaves every non-goal field of the user
      (XP, heat map, counters) alone, and answers with the stored goal. */
  lemma PutGoalRouteCorrect(db: map<string, UserRecord>, email: string, req: GoalRequest)
    ensures var (r, db') := PutGoalRoute(db, email, req);
      && (r.Status() == 400 <==> !HasKeyword(req))
      && (!HasKeyword(req) ==> db' == db)
      && (HasKeyword(req) ==>
            var kw := req.goalKeyword.value;
            var before := WithUser(db, email)[email];
            && r.Status() == 200
            && db'.Keys == db.Keys + {email}
            && (forall e :: e in db && e != email ==> db'[e] == db[e])
            && Stats(db'[email]) == Stats(before)
            && db'[email].goals.Keys == before.goals.Keys + {kw}
            && (forall k :: k in before.goals && k != kw ==> db'[email].goals[k] == before.goals[k])
            && db'[email].goals[kw] == ApplyGoalUpdate(GoalOrNew(before.goals, kw), req)
            && r.body == db'[email].goals[kw])
  {
  }

  /** Reading a goal back after writing it returns what the write answered,
      and `GET /user` answers as it does right after `initializeUser`: the
      goal update changes no non-goal field (it has no XP side effects). */
  lemma {:induction false} ReadAfterPutGoal(db: map<string, UserRecord>, email: string, req: GoalRequest)
    requires HasKeyword(req)
    ensures var (r, db') := PutGoalRoute(db, email, req);
      && GetGoals(db', email, req.goalKeyword) == Ok(map[req.goalKeyword.value := r.body])
      && GetUser(db', email) == GetUser(WithUser(db, email), email)
  {
    PutGoalRouteCorrect(db, email, req);
  }

  /** The record after the field updates of `PUT /user/:email`. */
  function ApplyUserUpdate(u: UserRecord, req: UserRequest): UserRecord {
    UserRecord(
      u.goals,
      if req.xp.Some? then Assign(u.xp, req.xp.value) else u.xp,
      if req.heatMap.Some? then Assign(u.heatMap, req.heatMap.value) else u.heatMap,
      req.maxQuestionsInADay.GetOr(u.maxQuestionsInADay),
      req.totalQuestions.GetOr(u.totalQuestions),
      req.age.GetOr(u.age),
      req.profession.GetOr(u.profession))
  }

  /** The updates of `PUT /user/:email` after the XP merge, on the record. */
  method UpdateStatFields(user: UserRecord, req: UserRequest) returns (updated: UserRecord)
    ensures updated == ApplyUserUpdate(user, req.(xp := None))
  {
    updated := user;
    if req.heatMap.Some? {
      updated := updated.(heatMap := Assign(updated.heatMap, req.heatMap.value));
    }
    if req.maxQuestionsInADay.Some? {
      updated := updated.(maxQuestionsInADay := req.maxQuestionsInADay.value);
    }
    if req.totalQuestions.Some? {
      updated := updated.(totalQuestions := req.totalQuestions.value);
    }
    if req.age.Some? {
      updated := updated.(age := req.age.value);
    }
    if req.profession.Some? {
      updated := updated.(profession := req.profession.value);
    }
  }

  /** A user update never touches `goals`; it merges `xp` and `heat_map` key
      by key (keys it does not mention keep their value) and overwrites each
      scalar field only when the body carries it. */
  lemma ApplyUserUpdateCorrect(u: UserRecord, req: UserRequest)
    ensures var r := ApplyUserUpdate(u, req);
      && r.goals == u.goals
      && r.xp.Keys == u.xp.Keys + req.xp.GetOr(map[]).Keys
      && (forall k :: k in req.xp.GetOr(map[]) ==> r.xp[k] == req.xp.value[k])
      && (forall k :: k in u.xp && k !in req.xp.GetOr(map[]) ==> r.xp[k] == u.xp[k])
      && r.heatMap.Keys == u.heatMap.Keys + req.heatMap.GetOr(map[]).Keys
      && (forall k :: k in req.heatMap.GetOr(map[]) ==> r.heatMap[k] == req.heatMap.value[k])
      && (forall k :: k in u.heatMap && k !in req.heatMap.GetOr(map[]) ==> r.heatMap[k] == u.heatMap[k])
      && (r.maxQuestionsInADay == if req.maxQuestionsInADay.Some? then req.maxQuestionsInADay.value else u.maxQuestionsInADay)
      && (r.totalQuestions == if req.totalQuestions.Some? then req.totalQuestions.value else u.totalQuestions)
      && (r.age == if req.age.Some? then req.age.value else u.age)
      && (r.profession == if req.profession.Some? then req.profession.value else u.profession)
  {
  }

  /** `PUT /user/:email`: the response and the database afterwards (the
      leaderboard side is in `Server.Store.PutUser`). */
  function PutUserRoute(db: map<string, UserRecord>, email: string, req: UserRequest)
    : (Response<UserRecord>, map<string, UserRecord>)
  {
    var user := ApplyUserUpdate(WithUser(db, email)[email], req);
    (Ok(user), WithUser(db, email)[email := user])
  }

  /** A user update always succeeds, creates the user if needed, changes no
      other user, and `GET /user` then shows the updated fields. */
  lemma {:induction false} PutUserRouteCorrect(db: map<string, UserRecord>, email: string, req: UserRequest)
    ensures var (r, db') := PutUserRoute(db, email, req);
      && r.Status() == 200
      && db'.Keys == db.Keys + {email}
      && (forall e :: e in db && e != email ==> db'[e] == db[e])
      && db'[email].goals == WithUser(db, email)[email].goals
      && GetUser(db', email) == Ok(Stats(r.body))
  {
  }
}
