# Goal tracker backend: in-memory store and leaderboard

This project models the core of a small Express server (`index.js`) that keeps
per-user learning goals and statistics in memory and derives a leaderboard
from them. Its state has two parts:

- `database`: a map from email to a user record holding `goals`, `xp`
  (a map from keys the client chooses, meant as goal keywords, to XP),
  `heat_map`, `max_questions_in_a_day`,
  `total_questions`, `age` and `profession`;
- `leaderboard`: a sequence of `{email, total_xp}` entries.

Each route reduces to a status code (200, 400 or 404) plus the data it
renders.

The model has these modules, one file each:

- `Json` (`json.dfy`): JSON values stored opaquely. `Option`: `None` is a
  request field that is absent (`undefined`).
- `Records` (`records.dfy`): user records, goals, leaderboard entries, the
  two PUT bodies and the route response. It also holds the get-or-create of
  `initializeUser` (`WithUser`) and `Object.assign` on a flat object
  (`Assign`).
- `XpTotal` (`xp_total.dfy`): the sum of a user's XP map. `SumXp` is the
  order-free reference definition. `TotalXp` is the fold as a loop.
- `Ranking` (`ranking.dfy`): the leaderboard refresh.
  - `FindIndex` is `findIndex`.
  - `Upsert` is a reference upsert.
  - `SortByXp` is the stable descending sort as a function.
  - `SortInPlace` is an in-place insertion sort on an array, proved equal to
    `SortByXp`.
  - Lemmas prove that the sort orders, permutes and is stable. Stable means
    that for every total, the entries with that total keep their order.
- `Goals` (`goals.dfy`): the goal update. It covers the two-level
  `daily_tasks` merge (a loop method proved equal to a specification
  function) and the shallow merges of `roadmap` and `progress_report`.
- `Routes` (`routes.dfy`): each route as a function of the database.
  - `GET /goals` and `GET /user` are read-only projections.
  - `PUT /goals` and `PUT /user` are transitions. Lemmas state what each one
    changes and what it leaves alone.
- `Server` (`server.dfy`): class `Store` with fields `database` and
  `leaderboard`. The handlers are methods that update those fields step by
  step, as the source does. Each method is proved to agree with the `Routes`
  transition.
  - The object invariant `Valid()` is `Coherent(database, leaderboard, {})`.
    It says the leaderboard is sorted by total XP and has one entry per
    email. It also says each entry belongs to a known user and equals the sum
    of that user's current XP map.
  - Every handler preserves this invariant.

Some behaviour one might expect from a goal tracker is absent from
`index.js`, so it is absent here too:

- A goal update never reads an `xp` field. It increments no counter and
  touches no heat-map entry.
- Records have no `questions_solved`, `contribution_streak` or
  `difficulty_level`.
- `GET /user/:email` answers 404 for an unknown email and creates nothing.
- `GET /goals/:email` answers 404 only for an unknown email. A known user
  always has a goals object, so a user without goals gets 200 and an empty
  map.
- Leaderboard entries carry only `email` and `total_xp`.

## Model

| member | source | states |
|---|---|---|
| `Records.WithUser` | index.js:15-27 | Get-or-create: the keys become the old keys plus `email`. Every existing record, including one under `email`, is unchanged. A missing record is created with empty `goals`, `xp` and `heat_map`, zero counters, and null `age` and `profession`. |
| `Records.WithUserIdempotent` | index.js:15-27 | Initialising a user twice equals initialising once. |
| `Server.Store.InitializeUser` | index.js:15-27 | The database afterwards is `WithUser` of the database before. The leaderboard is not touched and stays coherent. |
| `Records.AssignCorrect` | index.js:100-105 | `Object.assign` on a flat object: keys of the source overwrite, keys only in the target stay, and no other key appears. |
| `XpTotal.SumXpRemove` | index.js:32 | The XP sum does not depend on the order the keys are visited. Removing any key splits off exactly its value. |
| `XpTotal.TotalXp` | index.js:32 | The `reduce` fold over the XP values, visiting keys in any order, returns the XP sum. |
| `Ranking.FindIndex` | index.js:33 | `findIndex`: the first index whose email matches, or -1 exactly when no entry matches. |
| `Ranking.UpsertAt` | index.js:33-38 | Assigning at the index `findIndex` returns, or pushing when it returns -1, equals the reference upsert. |
| `Ranking.UpsertCorrect` | index.js:33-38 | On a leaderboard with unique emails the upsert keeps emails unique. Exactly one entry carries the email, and it has the new total. Every entry for another email is kept, and none is added. The length grows by one exactly when the email was absent. |
| `Ranking.InsertPermutes` | index.js:39 | One insertion step adds exactly the inserted entry (multiset). |
| `Ranking.InsertSorted` | index.js:39 | One insertion step into a sorted prefix keeps it non-increasing by total XP. |
| `Ranking.InsertStable` | index.js:39 | One insertion step places the new entry after every entry with the same total. |
| `Ranking.InsertUnique` | index.js:39 | Inserting an entry with a new email keeps emails unique. |
| `Ranking.SortByXpCorrect` | index.js:39 | The comparator sort `b.total_xp - a.total_xp` gives a sequence that is non-increasing by total XP and a permutation of its input. It is stable: for every total, the entries with that total appear in their original order. |
| `Ranking.SortByXpUnique` | index.js:39 | Sorting keeps emails unique. |
| `Ranking.InsertSplit` | index.js:39 | An insertion places the new entry directly after the last entry whose total is at least its own, when every later entry has a smaller total. |
| `Ranking.SortInPlace` | index.js:39 | The in-place sort of the array leaves exactly `SortByXp` of its old contents. |
| `Ranking.InsertInPlace` | index.js:39 | One pass of the in-place insertion sort inserts `a[i]` into the sorted prefix and leaves the rest of the array unchanged. |
| `Ranking.RefreshedCorrect` | index.js:30-39 | After a refresh the leaderboard is sorted and has unique emails. It has exactly one entry for the user, with the new total. Every other user's entry is kept with its total. The result is a stable permutation of the upserted leaderboard. |
| `Ranking.TiesKeepInsertionOrder` | index.js:33-39 | Refreshing users with totals 50, 80 and 50, in that order, yields 80 first, then the two 50s in the order they joined. |
| `Server.Store.UpdateLeaderboard` | index.js:30-40 | An unknown email leaves the leaderboard unchanged. Otherwise the leaderboard becomes the sorted upsert of the user's XP sum. The cache is coherent afterwards. |
| `Server.UnknownIsNeverStale` | index.js:31 | If the email is unknown the leaderboard has no entry for it, so skipping the refresh leaves the cache coherent. |
| `Server.RefreshMakesCoherent` | index.js:30-39 | Refreshing the one user whose entry is stale makes the whole leaderboard coherent again. |
| `Server.XpKeptMeansCoherent` | index.js:71-105 | An update that removes no user and changes no XP map keeps the leaderboard coherent. |
| `Server.Store.constructor` | index.js:11-12 | The store starts with an empty database and an empty leaderboard, and is coherent. |
| `Routes.GetGoals` | index.js:46-60 | 404 exactly when the email is unknown or a keyword is given that names no goal. Otherwise 200 with the single goal under its keyword, or with all goals. |
| `Routes.GetUser` | index.js:115-122 | 404 exactly when the email is unknown, with nothing created. Otherwise 200 with the record minus `goals`. |
| `Goals.MergedTasksCorrect` | index.js:87-99 | After the two-level merge, every incoming (date, task, key) maps to its incoming value. Every stored (date, task, key) the input does not name keeps its value. Each merged date holds exactly the stored and the incoming tasks, so no task disappears and every incoming task appears, even one with empty details. Each merged task's details hold exactly the keys of the stored and the incoming details, so no date, task or key appears from nowhere. |
| `Goals.MergeDailyTasks` | index.js:87-99 | The outer `for...in` over dates, in any key order, computes the two-level merge. |
| `Goals.MergeDay` | index.js:92-97 | The inner `for...in` over tasks, in any key order, assigns every incoming task's details onto the stored ones (or onto `{}`). |
| `Goals.FirstTaskStored` | index.js:87-99 | The first update of a goal without tasks stores exactly the date, task and details it names. |
| `Goals.SecondTaskKeepsFirst` | index.js:87-99 | A second update naming another task of the same date keeps the first task and its details. |
| `Goals.UpdateGoal` | index.js:83-105 | The handler's field updates on the goal object yield exactly `ApplyGoalUpdate` of the goal and the body. |
| `Goals.ApplyGoalUpdateCorrect` | index.js:83-105 | `end_goal` is overwritten exactly when supplied. `roadmap` and `progress_report` are shallow-merged: incoming keys win and stored keys stay. `daily_tasks` gets the two-level merge. An omitted field is unchanged. |
| `Routes.PutGoalRouteCorrect` | index.js:63-110 | 400 exactly when `goalKeyword` is missing or empty, and then the database is unchanged. Otherwise the user is created if absent, and the goal is created with defaults only if absent. No other goal or user changes. The user's non-goal fields (XP, heat map, counters) are unchanged. The response is the stored goal. |
| `Routes.ReadAfterPutGoal` | index.js:46-122 | After a goal update, `GET /goals` with that keyword returns the goal the update answered with. `GET /user` answers as it does right after `initializeUser`: the goal update changes no non-goal field. For an unknown email that is 200 with the default record where it was 404 before. |
| `Server.Store.PutGoal` | index.js:63-110 | The handler's response and database are those of `PutGoalRoute`. The leaderboard is untouched and stays coherent. |
| `Routes.UpdateStatFields` | index.js:134-148 | The updates after the XP merge (heat map merge, then the four scalar overwrites) yield exactly `ApplyUserUpdate` with no `xp` in the body. |
| `Routes.ApplyUserUpdateCorrect` | index.js:127-148 | `goals` is never modified. `xp` and `heat_map` are merged key by key, and keys the body does not mention keep their value. `max_questions_in_a_day`, `total_questions`, `age` and `profession` are overwritten exactly when supplied. |
| `Routes.PutUserRouteCorrect` | index.js:124-153 | A user update always answers 200 and creates the user if absent. No other user changes. The user's goals are kept. `GET /user` then shows the returned record minus its goals. |
| `Server.Store.PutUser` | index.js:124-153 | The handler's response and database are those of `PutUserRoute`. The leaderboard is refreshed for the user exactly when `xp` is supplied, and stays coherent either way. |
| `Server.Store.Leaderboard` | index.js:155-157 | `GET /leaderboard` returns the leaderboard. It is sorted non-increasing by total XP, has one entry per email, and each entry is a known user whose total equals the sum of their current XP map. |

## Left out

- Express plumbing is not modelled: `require`, `cors()`, `express.json()`,
  `app.listen` and logging are framework I/O.
- JSON rendering and message strings are not modelled. Each handler returns
  a `Response` (status plus data).
- JavaScript numbers are IEEE doubles; here XP, heat-map counts and the two
  counters are unbounded integers. The `reduce` at index.js:32 and the
  comparator `b.total_xp - a.total_xp` at index.js:39 agree with the model
  only while values and partial sums are integers below 2^53 in magnitude.
  Fractional XP is not represented.
- JavaScript dynamic typing is not modelled. A non-numeric `xp` value would
  turn the `reduce` into string concatenation, and that is not represented.
- A `PUT /user` body with `xp: null` is not represented: `Option<map>` has
  no value for it. In JavaScript it passes `xp !== undefined`
  (index.js:130), `Object.assign` ignores the null source so nothing is
  merged (index.js:131), and `updateLeaderboard` still runs
  (index.js:132), which can add the user with their current total.
- `goalKeyword` is a string or absent; the model has no value for a
  non-string keyword. In JavaScript a falsy one (`0`, `false`, `null`) is
  rejected with 400 at index.js:68 just like `""`, and a truthy one (`5`,
  `{}`) is turned into a string key.
- The falsy checks on stored `daily_tasks` entries (index.js:89 and
  index.js:93) become plain key-presence checks. The handlers only ever
  store objects there.
- Objects are modelled as plain maps with no prototype. Inherited
  `Object.prototype` names (`constructor`, `toString`, `__proto__`, ...) are
  ordinary keys here. That affects the truthiness lookups on `database`,
  `goals` and `daily_tasks` (index.js:16, index.js:73, index.js:89,
  index.js:117): in JavaScript `GET /user/constructor` finds an inherited
  function and answers 200, and a `goalKeyword` of `__proto__` makes the
  handler write `end_goal` onto `Object.prototype`. The model answers 404
  and stores a goal under that key. `Object.assign` enumerability and setter
  subtleties are not modelled either.
- `Server.Store.PutUser`: records are values, not shared objects. The
  handler's `user` reference to `database[email]` is modelled by writing the
  record back after the XP merge (before the refresh reads it) and at the
  end. The rendered `userData` aliasing the stored object is not
  represented.
- `Server.Store.UpdateLeaderboard`: the leaderboard is a sequence field. The
  in-place sort runs on an array copy that is then written back, so aliasing
  of the leaderboard array is not represented.
- Concurrency is not modelled: Node's event loop runs handlers one at a
  time.
