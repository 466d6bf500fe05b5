/** The sum of a user's per-goal XP, as `updateLeaderboard` folds it with
    `Object.values(xp).reduce((sum, points) => sum + points, 0)`. */
module XpTotal {

  /** The sum of all values of `m`. Defined by removing an arbitrary key, so
      it fixes no iteration order; `SumXpRemove` shows every order agrees. */
  ghost function SumXp(m: map<string, int>): int
    decreases |m|
  {
    if m == map[] then 0
    else
      var k :| k in m;
      assert |m - {k}| < |m| by { assert m.Keys == (m - {k}).Keys + {k}; }
      m[k] + SumXp(m - {k})
  }

  /** Removing any one key splits off exactly that key's value, whichever
      key the definition happened to pick first. */
  lemma {:induction false} SumXpRemove(m: map<string, int>, k: string)
    requires k in m
    ensures SumXp(m) == m[k] + SumXp(m - {k})
    decreases |m|
  {
    assert m != map[];
    var j :| j in m && SumXp(m) == m[j] + SumXp(m - {j});
    if j != k {
      var mj, mk := m - {j}, m - {k};
      assert mj - {k} == mk - {j};
      assert |mj| < |m| by { assert m.Keys == mj.Keys + {j}; }
      assert |mk| < |m| by { assert m.Keys == mk.Keys + {k}; }
      SumXpRemove(mj, k);
      SumXpRemove(mk, j);
    }
  }

  /** The fold of `updateLeaderboard`, visiting the keys in whatever order the
      map yields them. */
  method TotalXp(m: map<string, int>) returns (total: int)
    ensures total == SumXp(m)
  {
    total := 0;
    var rest := m;
    while rest != map[]
      invariant total + SumXp(rest) == SumXp(m)
      decreases |rest|
    {
      var k :| k in rest;
      SumXpRemove(rest, k);
      assert |rest - {k}| < |rest| by { assert rest.Keys == (rest - {k}).Keys + {k}; }
      total := total + rest[k];
      rest := rest - {k};
    }
  }
}
