/** The server's in-memory state, `database` (email to user record) and
    `leaderboard` (entries `{email, total_xp}`), and the handlers that update
    it in place. The read-only handlers are the functions of `Routes`
    applied to `database`, and `Store.Leaderboard`. */
module Server {
  import opened Records
  import opened XpTotal
  import opened Ranking
  import opened Goals
  import opened Routes

  /** The leaderboard as a cache of the database: sorted by total XP, one
      entry per email, only for known users, and each entry's total equal to
      the sum of that user's XP map, except for the emails in `stale`. */
  ghost predicate Coherent(db: map<string, UserRecord>, lb: seq<Entry>, stale: set<string>) {
    && SortedByXp(lb)
    && UniqueEmails(lb)
    && forall x :: x in lb ==> x.email in db && (x.email !in stale ==> x.totalXp == SumXp(db[x.email].xp))
  }

  /** A stale entry can only belong to a known user. */
  lemma UnknownIsNeverStale(db: map<string, UserRecord>, lb: seq<Entry>, email: string)
    requires Coherent(db, lb, {email}) && email !in db
    ensures Coherent(db, lb, {})
  {
  }

  /** Refreshing the one stale user makes the cache coherent again. */
  lemma RefreshMakesCoherent(db: map<string, UserRecord>, lb: seq<Entry>, email: string)
    requires Coherent(db, lb, {email}) && email in db
    ensures Coherent(db, Refreshed(lb, email, SumXp(db[email].xp)), {})
  {
    RefreshedCorrect(lb, email, SumXp(db[email].xp));
  }

  /** The cache stays coherent when no user disappears and no XP changes. */
  lemma XpKeptMeansCoherent(db: map<string, UserRecord>, db': map<string, UserRecord>, lb: seq<Entry>)
    requires Coherent(db, lb, {})
    requires forall e :: e in db ==> e in db' && db'[e].xp == db[e].xp
    ensures Coherent(db', lb, {})
  {
  }

  /** A fresh array holding `s`, for the in-place sort. */
  method ToArray(s: seq<Entry>) returns (a: array<Entry>)
    ensures fresh(a) && a[..] == s
  {
    a := new Entry[|s|](i requires 0 <= i < |s| => s[i]);
  }

  class Store {
    var database: map<string, UserRecord>
    var leaderboard: seq<Entry>

    ghost predicate Valid()
      reads this
    {
      Coherent(database, leaderboard, {})
    }

    constructor ()
      ensures Valid()
      ensures database == map[] && leaderboard == []
    {
      database := map[];
      leaderboard := [];
    }

    /** `initializeUser`: get-or-create the record for `email`. */
    method InitializeUser(email: string)
      requires Valid()
      modifies this`database
      ensures Valid()
      ensures database == WithUser(old(database), email)
    {
      if email !in database {
        database := database[email := NewUser()];
      }
      XpKeptMeansCoherent(old(database), database, leaderboard);
    }

    /** `updateLeaderboard`: nothing for an unknown email; otherwise sum the
        user's XP, overwrite that user's entry or push a new one, and sort
        the whole leaderboard again. Afterwards the cache is coherent. */
    method UpdateLeaderboard(email: string)
      requires Coherent(database, leaderboard, {email})
      modifies this`leaderboard
      ensures Valid()
      ensures email !in database ==> leaderboard == old(leaderboard)
      ensures email in database ==> leaderboard == Refreshed(old(leaderboard), email, SumXp(database[email].xp))
    {
      if email !in database {
        UnknownIsNeverStale(database, leaderboard, email);
        return;
      }
      RefreshMakesCoherent(database, leaderboard, email);
      var total := TotalXp(database[email].xp);
      var idx := FindIndex(leaderboard, email);
      UpsertAt(leaderboard, Entry(email, total), idx);
      if idx != -1 {
        leaderboard := leaderboard[idx := Entry(email, total)];
      } else {
        leaderboard := leaderboard + [Entry(email, total)];
      }
      var a := ToArray(leaderboard);
      SortInPlace(a);
      leaderboard := a[..];
    }

    /** `PUT /goals/:email`. */
    method PutGoal(email: string, req: GoalRequest) returns (r: Response<Goal>)
      requires Valid()
      modifies this`database
      ensures Valid()
      ensures leaderboard == old(leaderboard)
      ensures (r, database) == PutGoalRoute(old(database), email, req)
    {
      if !HasKeyword(req) {
        return BadRequest;
      }
      var kw := req.goalKeyword.value;
      InitializeUser(email);
      var user := database[email];
      ghost var before := user;
      if kw !in user.goals {
        user := user.(goals := user.goals[kw := NewGoal()]);
        database := database[email := user];
      }
      var goal := UpdateGoal(user.goals[kw], req);
      assert goal == ApplyGoalUpdate(GoalOrNew(before.goals, kw), req);
      assert user.goals[kw := goal] == before.goals[kw := goal];
      user := user.(goals := user.goals[kw := goal]);
      assert user == before.(goals := before.goals[kw := goal]);
      database := database[email := user];
      assert database == WithUser(old(database), email)[email := user];
      r := Ok(goal);
      XpKeptMeansCoherent(old(database), database, leaderboard);
    }

    /** `PUT /user/:email`: the leaderboard is refreshed exactly when the
        body carries `xp`. */
    method PutUser(email: string, req: UserRequest) returns (r: Response<UserRecord>)
      requires Valid()
      modifies this
      ensures Valid()
      ensures (r, database) == PutUserRoute(old(database), email, req)
      ensures leaderboard == if req.xp.Some? then Refreshed(old(leaderboard), email, SumXp(database[email].xp))
                             else old(leaderboard)
    {
      InitializeUser(email);
      // `user` stands for the record object the handler mutates; it is
      // written back before the refresh reads it and once more at the end.
      var user := database[email];
      ghost var before := user;
      if req.xp.Some? {
        user := user.(xp := Assign(user.xp, req.xp.value));
        database := database[email := user];
        UpdateLeaderboard(email);
      }
      user := UpdateStatFields(user, req);
      assert user == ApplyUserUpdate(before, req);
      database := database[email := user];
      assert database == WithUser(old(database), email)[email := user];
      r := Ok(user);
    }

    /** `GET /leaderboard`: the entries, highest total first, one per user,
        each total the current sum of that user's XP. */
    function Leaderboard(): (r: Response<seq<Entry>>)
      reads this
      requires Valid()
      ensures r.Ok? && r.body == leaderboard
      ensures SortedByXp(r.body) && UniqueEmails(r.body)
      ensures forall x :: x in r.body ==> x.email in database && x.totalXp == SumXp(database[x.email].xp)
    {
      Ok(leaderboard)
    }
  }
}
