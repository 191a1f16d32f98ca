/** The two report tabs of the Pay Per View Manager dashboard, as functions
    of the payout log: the logs tab lists the rows whose author still
    exists, newest first; the statistics tab sums them per author and
    lists the authors by total payout, highest first. */
module PayoutReports {

  import opened PpvModel
  import opened PayoutCycle

  // ---------------------------------------------------------------------
  // Ordering by a key, highest first.

  predicate SortedDesc<T>(xs: seq<T>, key: T -> real)
  {
    forall i, j :: 0 <= i < j < |xs| ==> key(xs[i]) >= key(xs[j])
  }

  /** `x` placed in front of the first element whose key is not above its
      own. */
  function InsertDesc<T>(x: T, xs: seq<T>, key: T -> real): (r: seq<T>)
    ensures multiset(r) == multiset(xs) + multiset{x}
  {
    if xs == [] || key(x) >= key(xs[0]) then [x] + xs
    else
      assert xs == [xs[0]] + xs[1..];
      [xs[0]] + InsertDesc(x, xs[1..], key)
  }

  /** An insertion sort, highest key first; of equal keys, the one earlier
      in `xs` comes first. */
  function SortDesc<T>(xs: seq<T>, key: T -> real): (r: seq<T>)
    ensures multiset(r) == multiset(xs)
  {
    if xs == [] then []
    else
      assert xs == [xs[0]] + xs[1..];
      InsertDesc(xs[0], SortDesc(xs[1..], key), key)
  }

  lemma {:induction false} InsertDescSorted<T>(x: T, xs: seq<T>, key: T -> real)
    requires SortedDesc(xs, key)
    ensures SortedDesc(InsertDesc(x, xs, key), key)
  {
    if xs != [] && key(x) < key(xs[0]) {
      var rest := InsertDesc(x, xs[1..], key);
      InsertDescSorted(x, xs[1..], key);
      var r := [xs[0]] + rest;
      forall j | 1 <= j < |r| ensures key(xs[0]) >= key(r[j]) {
        assert r[j] in multiset(rest);
        assert r[j] in multiset(xs[1..]) + multiset{x};
        if r[j] != x {
          assert r[j] in xs[1..];
          var k :| 0 <= k < |xs[1..]| && xs[1..][k] == r[j];
          assert xs[k + 1] == r[j];
        }
      }
    }
  }

  /** The sort orders by the key, highest first, and keeps every element. */
  lemma {:induction false} SortDescSorted<T>(xs: seq<T>, key: T -> real)
    ensures SortedDesc(SortDesc(xs, key), key)
    ensures multiset(SortDesc(xs, key)) == multiset(xs)
  {
    if xs != [] {
      SortDescSorted(xs[1..], key);
      InsertDescSorted(xs[0], SortDesc(xs[1..], key), key);
    }
  }

  // ---------------------------------------------------------------------
  // The join with the users table.

  function UserIds(users: seq<User>): set<int>
  {
    set u | u in users :: u.id
  }

  /** The rows whose author is a user: the inner join on the author ID. */
  function Joined(rows: seq<LogRow>, ids: set<int>): (r: seq<LogRow>)
    ensures forall x :: x in r <==> x in rows && x.authorId in ids
    ensures multiset(r) <= multiset(rows)
    ensures forall x :: multiset(r)[x] == if x.authorId in ids then multiset(rows)[x] else 0
  {
    if rows == [] then []
    else
      assert rows == [rows[0]] + rows[1..];
      (if rows[0].authorId in ids then [rows[0]] else []) + Joined(rows[1..], ids)
  }

  // ---------------------------------------------------------------------
  // The logs tab.

  function DateKey(r: LogRow): real { r.date as real }

  /** The logs tab: the joined rows by date, newest first. Rows of the same
      date have no order in the query; the model keeps them in insertion
      order. */
  function LogsTab(rows: seq<LogRow>, users: seq<User>): seq<LogRow>
  {
    SortDesc(Joined(rows, UserIds(users)), DateKey)
  }

  /** The logs tab lists exactly the rows of existing authors, each as
      often as it is stored, newest first. */
  lemma LogsTabContents(rows: seq<LogRow>, users: seq<User>)
    ensures var tab := LogsTab(rows, users);
            && multiset(tab) == multiset(Joined(rows, UserIds(users)))
            && (forall i, j :: 0 <= i < j < |tab| ==> tab[i].date >= tab[j].date)
            && (forall r :: r in tab <==> r in rows && exists u :: u in users && u.id == r.authorId)
            && (forall r :: multiset(tab)[r] == if r.authorId in UserIds(users) then multiset(rows)[r] else 0)
  {
    var joined := Joined(rows, UserIds(users));
    var tab := LogsTab(rows, users);
    SortDescSorted(joined, DateKey);
    forall i, j | 0 <= i < j < |tab| ensures tab[i].date >= tab[j].date {
      assert DateKey(tab[i]) >= DateKey(tab[j]);
    }
    SameMembers(tab, joined);
  }

  /** Two sequences with the same elements, counted, have the same
      members. */
  lemma SameMembers<T>(a: seq<T>, b: seq<T>)
    requires multiset(a) == multiset(b)
    ensures forall x :: x in a <==> x in b
  {
    forall x ensures x in a <==> x in b {
      assert x in a <==> x in multiset(a);
      assert x in b <==> x in multiset(b);
    }
  }

  // ---------------------------------------------------------------------
  // The statistics tab.

  /** A row of the statistics tab. */
  datatype Stat = Stat(authorId: int, views: int, readingTime: int, payout: real)

  /** The sums of the rows of author `a`. */
  function StatOf(rows: seq<LogRow>, a: int): (st: Stat)
    ensures st.authorId == a
  {
    if rows == [] then Stat(a, 0, 0, 0.0)
    else
      var rest := StatOf(rows[1..], a);
      if rows[0].authorId == a then Stat(a, rows[0].views + rest.views, rows[0].readingTime + rest.readingTime, rows[0].payout + rest.payout)
      else rest
  }

  /** The distinct authors of `rows`. */
  function AuthorsOf(rows: seq<LogRow>): (r: seq<int>)
    ensures forall a :: a in r <==> exists x :: x in rows && x.authorId == a
    ensures forall i, j :: 0 <= i < j < |r| ==> r[i] != r[j]
  {
    if rows == [] then []
    else
      var rest := AuthorsOf(rows[1..]);
      assert forall x :: x in rows <==> x == rows[0] || x in rows[1..];
      if rows[0].authorId in rest then rest else [rows[0].authorId] + rest
  }

  /** `GROUP BY l.author_id`: one group per author. */
  function Grouped(rows: seq<LogRow>): (r: seq<Stat>)
    ensures |r| == |AuthorsOf(rows)|
    ensures forall i :: 0 <= i < |r| ==> r[i] == StatOf(rows, AuthorsOf(rows)[i])
  {
    var authors := AuthorsOf(rows);
    seq(|authors|, i requires 0 <= i < |authors| => StatOf(rows, authors[i]))
  }

  function PayoutKey(st: Stat): real { st.payout }

  /** The statistics tab: the groups of the joined rows, highest total
      payout first. */
  function StatsTab(rows: seq<LogRow>, users: seq<User>): seq<Stat>
  {
    SortDesc(Grouped(Joined(rows, UserIds(users))), PayoutKey)
  }

  /** The statistics tab lists the authors by total payout, highest
      first, each once. */
  lemma StatsTabOrder(rows: seq<LogRow>, users: seq<User>)
    ensures var tab := StatsTab(rows, users);
            && (forall i, j :: 0 <= i < j < |tab| ==> tab[i].payout >= tab[j].payout)
            && (forall i, j :: 0 <= i < j < |tab| ==> tab[i].authorId != tab[j].authorId)
  {
    var groups := Grouped(Joined(rows, UserIds(users)));
    var tab := StatsTab(rows, users);
    SortDescSorted(groups, PayoutKey);
    forall i, j | 0 <= i < j < |tab| ensures tab[i].payout >= tab[j].payout {
      assert PayoutKey(tab[i]) >= PayoutKey(tab[j]);
    }
    GroupsUniqueAfterSort(groups, tab);
  }

  /** The lines of the statistics tab are the groups, reordered. */
  lemma StatsTabIsGroups(rows: seq<LogRow>, users: seq<User>)
    ensures var groups := Grouped(Joined(rows, UserIds(users)));
            forall st :: st in StatsTab(rows, users) <==> st in groups
  {
    var groups := Grouped(Joined(rows, UserIds(users)));
    var tab := StatsTab(rows, users);
    SortDescSorted(groups, PayoutKey);
    SameMembers(tab, groups);
  }

  /** Each line of the statistics tab holds the sums of its author's rows. */
  lemma StatsTabSums(rows: seq<LogRow>, users: seq<User>)
    ensures var joined := Joined(rows, UserIds(users));
            forall st :: st in StatsTab(rows, users) ==> st == StatOf(joined, st.authorId)
  {
    StatsTabIsGroups(rows, users);
  }

  /** The statistics tab has a line for exactly the existing authors with
      rows. */
  lemma StatsTabAuthors(rows: seq<LogRow>, users: seq<User>)
    ensures forall a :: (exists st :: st in StatsTab(rows, users) && st.authorId == a) <==>
                          (exists r :: r in rows && r.authorId == a) && a in UserIds(users)
  {
    var joined := Joined(rows, UserIds(users));
    StatsTabIsGroups(rows, users);
    GroupAuthors(joined, StatsTab(rows, users));
    JoinedAuthors(rows, UserIds(users));
  }

  lemma GroupAuthors(joined: seq<LogRow>, tab: seq<Stat>)
    requires forall st :: st in tab <==> st in Grouped(joined)
    ensures forall a :: (exists st :: st in tab && st.authorId == a) <==> a in AuthorsOf(joined)
  {
    var groups := Grouped(joined);
    var authors := AuthorsOf(joined);
    forall a ensures (exists st :: st in tab && st.authorId == a) <==> a in authors {
      if exists st :: st in tab && st.authorId == a {
        var st :| st in tab && st.authorId == a;
        var k :| 0 <= k < |groups| && groups[k] == st;
        assert st.authorId == authors[k];
      }
      if a in authors {
        var k :| 0 <= k < |authors| && authors[k] == a;
        assert groups[k].authorId == a;
        assert groups[k] in tab;
      }
    }
  }

  lemma JoinedAuthors(rows: seq<LogRow>, ids: set<int>)
    ensures forall a :: a in AuthorsOf(Joined(rows, ids)) <==> (exists r :: r in rows && r.authorId == a) && a in ids
  {
    var joined := Joined(rows, ids);
    forall a ensures a in AuthorsOf(joined) <==> (exists r :: r in rows && r.authorId == a) && a in ids {
      if a in AuthorsOf(joined) {
        var x :| x in joined && x.authorId == a;
        assert x in rows && a in ids;
      }
      if (exists r :: r in rows && r.authorId == a) && a in ids {
        var r :| r in rows && r.authorId == a;
        assert r in joined;
      }
    }
  }

  /** A permutation of groups with distinct authors has distinct authors. */
  lemma GroupsUniqueAfterSort(groups: seq<Stat>, tab: seq<Stat>)
    requires multiset(tab) == multiset(groups)
    requires forall i, j :: 0 <= i < j < |groups| ==> groups[i].authorId != groups[j].authorId
    ensures forall i, j :: 0 <= i < j < |tab| ==> tab[i].authorId != tab[j].authorId
  {
    forall i, j | 0 <= i < j < |tab| ensures tab[i].authorId != tab[j].authorId {
      if tab[i].authorId == tab[j].authorId {
        assert tab[i] in multiset(groups) && tab[j] in multiset(groups);
        var p :| 0 <= p < |groups| && groups[p] == tab[i];
        var q :| 0 <= q < |groups| && groups[q] == tab[j];
        TwiceCountedTwice(tab, i, j);
        GroupCountedOnce(groups, p);
        assert false;
      }
    }
  }

  lemma TwiceCountedTwice(tab: seq<Stat>, i: int, j: int)
    requires 0 <= i < j < |tab|
    ensures tab[i] == tab[j] ==> multiset(tab)[tab[i]] >= 2
  {
    assert tab == tab[..i] + [tab[i]] + tab[i + 1..j] + [tab[j]] + tab[j + 1..];
  }

  lemma GroupCountedOnce(groups: seq<Stat>, p: int)
    requires 0 <= p < |groups|
    requires forall i, j :: 0 <= i < j < |groups| ==> groups[i].authorId != groups[j].authorId
    ensures multiset(groups)[groups[p]] == 1
  {
    var g := groups[p];
    assert groups == groups[..p] + [g] + groups[p + 1..];
    forall k | 0 <= k < p ensures groups[..p][k] != g {
      assert groups[..p][k] == groups[k];
    }
    var tail := groups[p + 1..];
    forall k | 0 <= k < |tail| ensures tail[k] != g {
      assert tail[k] == groups[p + 1 + k];
    }
    assert g !in groups[..p] && g !in groups[p + 1..];
  }
}
