/** The leaderboard: entries `{email, total_xp}`, upserted by email and kept
    sorted by `Array.prototype.sort` with the comparator
    `(a, b) => b.total_xp - a.total_xp`, a stable sort (ES2019 onwards). */
module Ranking {
  import opened Records

  /** Non-increasing by `totalXp`. */
  ghost predicate SortedByXp(s: seq<Entry>) {
    forall i, j :: 0 <= i < j < |s| ==> s[i].totalXp >= s[j].totalXp
  }

  /** No two entries carry the same email. */
  ghost predicate UniqueEmails(s: seq<Entry>) {
    forall i, j :: 0 <= i < j < |s| ==> s[i].email != s[j].email
  }

  /** The entries of `s` whose total is `xp`, in their order in `s`. A sort is
      stable exactly when it leaves every such subsequence as it was. */
  function WithXp(s: seq<Entry>, xp: int): seq<Entry> {
    if s == [] then []
    else WithXp(s[..|s| - 1], xp) + (if s[|s| - 1].totalXp == xp then [s[|s| - 1]] else [])
  }

  /** Insert `x` into the sorted `s` after every entry whose total is at least
      that of `x`: the step a stable descending insertion sort takes. */
  function Insert(s: seq<Entry>, x: Entry): seq<Entry> {
    if s == [] || s[|s| - 1].totalXp >= x.totalXp then s + [x]
    else Insert(s[..|s| - 1], x) + [s[|s| - 1]]
  }

  /** The stable descending sort, element by element from the left. */
  function SortByXp(s: seq<Entry>): seq<Entry> {
    if s == [] then [] else Insert(SortByXp(s[..|s| - 1]), s[|s| - 1])
  }

  lemma {:induction false} InsertPermutes(s: seq<Entry>, x: Entry)
    ensures multiset(Insert(s, x)) == multiset(s) + multiset{x}
  {
    if s == [] || s[|s| - 1].totalXp >= x.totalXp {
    } else {
      var init, last := s[..|s| - 1], s[|s| - 1];
      InsertPermutes(init, x);
      assert s == init + [last];
    }
  }

  lemma {:induction false} InsertSorted(s: seq<Entry>, x: Entry)
    requires SortedByXp(s)
    ensures SortedByXp(Insert(s, x))
  {
    if s == [] || s[|s| - 1].totalXp >= x.totalXp {
    } else {
      var init, last := s[..|s| - 1], s[|s| - 1];
      InsertSorted(init, x);
      InsertPermutes(init, x);
      var t := Insert(init, x);
      forall i | 0 <= i < |t| ensures t[i].totalXp >= last.totalXp {
        assert t[i] in multiset(t);
      }
    }
  }

  lemma {:induction false} InsertStable(s: seq<Entry>, x: Entry, xp: int)
    ensures WithXp(Insert(s, x), xp) == WithXp(s, xp) + (if x.totalXp == xp then [x] else [])
  {
    if s == [] || s[|s| - 1].totalXp >= x.totalXp {
      assert (s + [x])[..|s|] == s;
    } else {
      var init, last := s[..|s| - 1], s[|s| - 1];
      InsertStable(init, x, xp);
      var t := Insert(init, x);
      assert (t + [last])[..|t|] == t;
    }
  }

  lemma {:induction false} InsertUnique(s: seq<Entry>, x: Entry)
    requires UniqueEmails(s)
    requires forall e :: e in s ==> e.email != x.email
    ensures UniqueEmails(Insert(s, x))
  {
    if s == [] || s[|s| - 1].totalXp >= x.totalXp {
    } else {
      var init, last := s[..|s| - 1], s[|s| - 1];
      InsertUnique(init, x);
      InsertPermutes(init, x);
      var t := Insert(init, x);
      forall i | 0 <= i < |t| ensures t[i].email != last.email {
        assert t[i] in multiset(t);
      }
    }
  }

  /** `SortByXp` sorts, permutes, and is stable. */
  lemma {:induction false} SortByXpCorrect(s: seq<Entry>)
    ensures SortedByXp(SortByXp(s))
    ensures multiset(SortByXp(s)) == multiset(s)
    ensures forall xp :: WithXp(SortByXp(s), xp) == WithXp(s, xp)
  {
    if s != [] {
      var init, last := s[..|s| - 1], s[|s| - 1];
      SortByXpCorrect(init);
      var t := SortByXp(init);
      InsertSorted(t, last);
      InsertPermutes(t, last);
      assert s == init + [last];
      forall xp ensures WithXp(SortByXp(s), xp) == WithXp(s, xp) {
        InsertStable(t, last, xp);
      }
    }
  }

  /** Sorting keeps emails unique. */
  lemma {:induction false} SortByXpUnique(s: seq<Entry>)
    requires UniqueEmails(s)
    ensures UniqueEmails(SortByXp(s))
  {
    if s != [] {
      var init, last := s[..|s| - 1], s[|s| - 1];
      SortByXpUnique(init);
      SortByXpCorrect(init);
      forall e | e in SortByXp(init) ensures e.email != last.email {
        assert e in multiset(init);
      }
      InsertUnique(SortByXp(init), last);
    }
  }

  /** `leaderboard.sort((a, b) => b.total_xp - a.total_xp)` on the array
      itself: an insertion sort, so entries with equal totals keep their order. */
  method SortInPlace(a: array<Entry>)
    modifies a
    ensures a[..] == SortByXp(old(a[..]))
  {
    ghost var s := a[..];
    var i := 0;
    while i < a.Length
      invariant 0 <= i <= a.Length
      invariant a[..i] == SortByXp(s[..i])
      invariant a[i..] == s[i..]
    {
      InsertInPlace(a, i);
      assert s[..i + 1][..i] == s[..i];
      i := i + 1;
    }
    assert s[..a.Length] == s;
  }

  /** One pass of the insertion sort: `a[i]` moves left past every entry of
      the sorted prefix `a[..i]` with a strictly smaller total. */
  method InsertInPlace(a: array<Entry>, i: nat)
    requires i < a.Length
    modifies a
    ensures a[..i + 1] == Insert(old(a[..i]), old(a[i]))
    ensures forall k :: i < k < a.Length ==> a[k] == old(a[k])
  {
    var x := a[i];
    ghost var p := a[..i];
    var j := i;
    while j > 0 && a[j - 1].totalXp < x.totalXp
      invariant 0 <= j <= i
      invariant forall k :: 0 <= k < j ==> a[k] == p[k]
      invariant forall k :: j < k <= i ==> a[k] == p[k - 1]
      invariant forall k :: j <= k < i ==> p[k].totalXp < x.totalXp
      invariant forall k :: i < k < a.Length ==> a[k] == old(a[k])
    {
      a[j] := a[j - 1];
      j := j - 1;
    }
    a[j] := x;
    InsertSplit(p, x, j);
    assert a[..i + 1] == p[..j] + [x] + p[j..];
  }

  /** Where `Insert` puts `x`: after the last entry whose total is at least
      that of `x`, when all the entries after it have smaller totals. */
  lemma {:induction false} InsertSplit(p: seq<Entry>, x: Entry, j: nat)
    requires j <= |p|
    requires j == 0 || p[j - 1].totalXp >= x.totalXp
    requires forall k :: j <= k < |p| ==> p[k].totalXp < x.totalXp
    ensures Insert(p, x) == p[..j] + [x] + p[j..]
  {
    if j < |p| {
      var init, last := p[..|p| - 1], p[|p| - 1];
      assert last.totalXp < x.totalXp;
      assert Insert(p, x) == Insert(init, x) + [last];
      InsertSplit(init, x, j);
      assert init[..j] == p[..j];
      assert p[j..] == init[j..] + [last];
    } else {
      assert p[..j] == p && p[j..] == [];
    }
  }

  /** `leaderboard.findIndex(user => user.email === email)`. */
  method FindIndex(lb: seq<Entry>, email: string) returns (idx: int)
    ensures -1 <= idx < |lb|
    ensures idx >= 0 ==> lb[idx].email == email
    ensures forall j :: 0 <= j < |lb| && (idx == -1 || j < idx) ==> lb[j].email != email
  {
    idx := 0;
    while idx < |lb|
      invariant 0 <= idx <= |lb|
      invariant forall j :: 0 <= j < idx ==> lb[j].email != email
    {
      if lb[idx].email == email {
        return;
      }
      idx := idx + 1;
    }
    idx := -1;
  }

  /** The reference upsert: replace the first entry with `e`'s email by `e`,
      or append `e` when there is none. */
  function Upsert(lb: seq<Entry>, e: Entry): seq<Entry> {
    if lb == [] then [e]
    else if lb[0].email == e.email then [e] + lb[1..]
    else [lb[0]] + Upsert(lb[1..], e)
  }

  /** `Upsert` agrees with the assignment at the index `findIndex` finds, and
      with `push` when it finds none. */
  lemma {:induction false} UpsertAt(lb: seq<Entry>, e: Entry, idx: int)
    requires -1 <= idx < |lb|
    requires idx >= 0 ==> lb[idx].email == e.email
    requires forall j :: 0 <= j < |lb| && (idx == -1 || j < idx) ==> lb[j].email != e.email
    ensures Upsert(lb, e) == if idx == -1 then lb + [e] else lb[idx := e]
  {
    if lb != [] && lb[0].email != e.email {
      UpsertAt(lb[1..], e, if idx == -1 then -1 else idx - 1);
    }
  }

  /** On a leaderboard with unique emails, an upsert leaves exactly one entry
      for the email, carrying the new total, and every other entry as it was. */
  lemma {:induction false} UpsertCorrect(lb: seq<Entry>, e: Entry)
    requires UniqueEmails(lb)
    ensures UniqueEmails(Upsert(lb, e))
    ensures e in Upsert(lb, e)
    ensures forall x :: x in Upsert(lb, e) && x.email == e.email ==> x == e
    ensures forall x: Entry :: x.email != e.email ==> (x in Upsert(lb, e) <==> x in lb)
    ensures |Upsert(lb, e)| == if exists x :: x in lb && x.email == e.email then |lb| else |lb| + 1
  {
    if lb != [] && lb[0].email != e.email {
      UpsertCorrect(lb[1..], e);
      var tail := Upsert(lb[1..], e);
      assert forall x :: x in lb[1..] ==> x.email != lb[0].email;
      assert (exists x :: x in lb && x.email == e.email) == (exists x :: x in lb[1..] && x.email == e.email) by {
        assert forall x :: x in lb ==> x == lb[0] || x in lb[1..];
      }
    } else if lb != [] {
      assert forall x :: x in lb[1..] ==> x.email != lb[0].email;
      assert forall x :: x in lb ==> x == lb[0] || x in lb[1..];
    }
  }

  /** The leaderboard after `updateLeaderboard` for a user whose XP sums to
      `total`: the upsert, then the stable sort. */
  function Refreshed(lb: seq<Entry>, email: string, total: int): seq<Entry> {
    SortByXp(Upsert(lb, Entry(email, total)))
  }

  /** What a refresh guarantees: sorted, unique emails, exactly one entry for
      the email with the new total, every other entry kept, and the entries
      of equal totals in the order the upsert left them. */
  lemma RefreshedCorrect(lb: seq<Entry>, email: string, total: int)
    requires UniqueEmails(lb)
    ensures var r := Refreshed(lb, email, total);
      && SortedByXp(r)
      && UniqueEmails(r)
      && Entry(email, total) in r
      && (forall x :: x in r && x.email == email ==> x.totalXp == total)
      && (forall x: Entry :: x.email != email ==> (x in r <==> x in lb))
      && multiset(r) == multiset(Upsert(lb, Entry(email, total)))
      && (forall xp :: WithXp(r, xp) == WithXp(Upsert(lb, Entry(email, total)), xp))
  {
    var u := Upsert(lb, Entry(email, total));
    UpsertCorrect(lb, Entry(email, total));
    SortByXpCorrect(u);
    SortByXpUnique(u);
    var r := SortByXp(u);
    assert forall x :: x in r <==> x in u by {
      forall x ensures x in r <==> x in u {
        assert x in r <==> x in multiset(r);
      }
    }
  }

  /** Refreshing users with totals 50, 80 and 50, in that order, puts the
      80 first and keeps the two 50s in the order they joined. */
  lemma TiesKeepInsertionOrder()
    ensures Refreshed(Refreshed(Refreshed([], "a", 50), "b", 80), "c", 50)
         == [Entry("b", 80), Entry("a", 50), Entry("c", 50)]
  {
    var a, b, c := Entry("a", 50), Entry("b", 80), Entry("c", 50);
    assert [a][..0] == [];
    assert Refreshed([], "a", 50) == [a];
    assert Upsert([a], b) == [a, b];
    assert [a, b][..1] == [a];
    assert Insert([a], b) == [b, a];
    assert Refreshed([a], "b", 80) == [b, a];
    assert Upsert([b, a], c) == [b, a, c];
    assert [b, a, c][..2] == [b, a] && [b, a][..1] == [b];
    assert SortByXp([b, a]) == [b, a];
    assert Refreshed([b, a], "c", 50) == [b, a, c];
  }
}
