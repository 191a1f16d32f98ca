/** The "Current Period Payouts" table of the Pay Per View Manager
    dashboard: one row per author or editor with views or reading time,
    whose payout is computed against totals that run only over the
    authors listed so far. */
module PayoutPreview {

  import opened PpvModel

  /** A row of the table: the author, their sums and their payout. */
  datatype PreviewRow = PreviewRow(author: int, views: int, readingTime: int, payout: real)

  /** The users of `us` the dashboard lists, in order: all but the
      excluded administrators. */
  function Listed(us: seq<User>): seq<User>
  {
    if us == [] then []
    else
      var last := us[|us| - 1];
      Listed(us[..|us| - 1]) + (if last.id in ExcludedAdmins then [] else [last])
  }

  /** The table for the users `us`: the row of a listed user with views
      or reading time above 0 uses as global figures the sums over the
      listed users up to and including that user. */
  function PreviewRows(site: Site, views: map<int, int>, readingTime: map<int, int>, s: Settings, us: seq<User>): seq<PreviewRow>
  {
    if us == [] then []
    else
      var rest := PreviewRows(site, views, readingTime, s, us[..|us| - 1]);
      var u := us[|us| - 1];
      if u.id in ExcludedAdmins then rest
      else
        var t := AuthorTotals(site, views, readingTime, u.id);
        var g := GlobalCounts(Listed(us), site.posts, views, readingTime);
        if t.views > 0 || t.readingTime > 0 then
          rest + [PreviewRow(u.id, t.views, t.readingTime, Payout(s, t, g.views, g.readingTime))]
        else rest
  }

  /** The table of the dashboard. */
  function Preview(site: Site, views: map<int, int>, readingTime: map<int, int>, s: Settings): seq<PreviewRow>
  {
    PreviewRows(site, views, readingTime, s, EligibleUsers(site.users))
  }

  /** The table grows by one user at a time: a listed user adds their
      sums to the running totals, and a row when active. */
  lemma PreviewRowsSnoc(site: Site, views: map<int, int>, readingTime: map<int, int>, s: Settings, us: seq<User>, u: User)
    ensures var g := GlobalCounts(Listed(us), site.posts, views, readingTime);
            var t := AuthorTotals(site, views, readingTime, u.id);
            var g' := GlobalCounts(Listed(us + [u]), site.posts, views, readingTime);
            var rows := PreviewRows(site, views, readingTime, s, us);
            var rows' := PreviewRows(site, views, readingTime, s, us + [u]);
            if u.id in ExcludedAdmins then g' == g && rows' == rows
            else
              && g' == Counts(g.views + t.views, g.readingTime + t.readingTime)
              && rows' == if t.views > 0 || t.readingTime > 0
                          then rows + [PreviewRow(u.id, t.views, t.readingTime, Payout(s, t, g'.views, g'.readingTime))]
                          else rows
  {
    if u.id in ExcludedAdmins {
      PreviewRowsSnocExcluded(site, views, readingTime, s, us, u);
    } else {
      PreviewRowsSnocListed(site, views, readingTime, s, us, u);
    }
  }

  lemma PreviewRowsSnocExcluded(site: Site, views: map<int, int>, readingTime: map<int, int>, s: Settings, us: seq<User>, u: User)
    requires u.id in ExcludedAdmins
    ensures Listed(us + [u]) == Listed(us)
    ensures PreviewRows(site, views, readingTime, s, us + [u]) == PreviewRows(site, views, readingTime, s, us)
  {
    assert (us + [u])[..|us|] == us;
    ListedSnoc(us, u);
    assert Listed(us) + [] == Listed(us);
  }

  lemma PreviewRowsSnocListed(site: Site, views: map<int, int>, readingTime: map<int, int>, s: Settings, us: seq<User>, u: User)
    requires u.id !in ExcludedAdmins
    ensures var g := GlobalCounts(Listed(us), site.posts, views, readingTime);
            var t := AuthorTotals(site, views, readingTime, u.id);
            GlobalCounts(Listed(us + [u]), site.posts, views, readingTime) == Counts(g.views + t.views, g.readingTime + t.readingTime)
    ensures var t := AuthorTotals(site, views, readingTime, u.id);
            var g' := GlobalCounts(Listed(us + [u]), site.posts, views, readingTime);
            var rows := PreviewRows(site, views, readingTime, s, us);
            PreviewRows(site, views, readingTime, s, us + [u]) ==
              if t.views > 0 || t.readingTime > 0
              then rows + [PreviewRow(u.id, t.views, t.readingTime, Payout(s, t, g'.views, g'.readingTime))]
              else rows
  {
    assert (us + [u])[..|us|] == us;
    ListedSnoc(us, u);
    CountsSnoc(Listed(us), u, site.posts, views, readingTime);
  }

  /** One step of the dashboard's loop over a listed user `us[i]`: the
      running totals take in the user's sums. */
  lemma TotalsStep(site: Site, views: map<int, int>, readingTime: map<int, int>, us: seq<User>, i: int, gv: int, gr: int)
    requires 0 <= i < |us| && us[i].id !in ExcludedAdmins
    requires Counts(gv, gr) == GlobalCounts(Listed(us[..i]), site.posts, views, readingTime)
    ensures var t := AuthorTotals(site, views, readingTime, us[i].id);
            Counts(gv + t.views, gr + t.readingTime) == GlobalCounts(Listed(us[..i + 1]), site.posts, views, readingTime)
  {
    assert us[..i + 1] == us[..i] + [us[i]];
    ListedSnoc(us[..i], us[i]);
    CountsSnoc(Listed(us[..i]), us[i], site.posts, views, readingTime);
  }

  /** One step of the dashboard's loop over an excluded administrator:
      nothing changes. */
  lemma ExcludedStep(site: Site, views: map<int, int>, readingTime: map<int, int>, s: Settings, us: seq<User>, i: int)
    requires 0 <= i < |us| && us[i].id in ExcludedAdmins
    ensures Listed(us[..i + 1]) == Listed(us[..i])
    ensures PreviewRows(site, views, readingTime, s, us[..i + 1]) == PreviewRows(site, views, readingTime, s, us[..i])
  {
    assert us[..i + 1] == us[..i] + [us[i]];
    PreviewRowsSnocExcluded(site, views, readingTime, s, us[..i], us[i]);
  }

  /** One step of the dashboard's loop over an active listed user: the
      table gains the user's row, paid against the new running totals. */
  lemma RowsStepActive(site: Site, views: map<int, int>, readingTime: map<int, int>, s: Settings, us: seq<User>, i: int,
                       rows: seq<PreviewRow>, gv: int, gr: int)
    requires 0 <= i < |us| && us[i].id !in ExcludedAdmins
    requires rows == PreviewRows(site, views, readingTime, s, us[..i])
    requires Counts(gv, gr) == GlobalCounts(Listed(us[..i + 1]), site.posts, views, readingTime)
    requires AuthorTotals(site, views, readingTime, us[i].id).views > 0 || AuthorTotals(site, views, readingTime, us[i].id).readingTime > 0
    ensures var t := AuthorTotals(site, views, readingTime, us[i].id);
            PreviewRows(site, views, readingTime, s, us[..i + 1]) == rows + [PreviewRow(us[i].id, t.views, t.readingTime, Payout(s, t, gv, gr))]
  {
    assert us[..i + 1][..i] == us[..i];
  }

  /** One step of the dashboard's loop over a listed user without views or
      reading time: the table stays as it is. */
  lemma RowsStepIdle(site: Site, views: map<int, int>, readingTime: map<int, int>, s: Settings, us: seq<User>, i: int)
    requires 0 <= i < |us|
    requires AuthorTotals(site, views, readingTime, us[i].id).views <= 0 && AuthorTotals(site, views, readingTime, us[i].id).readingTime <= 0
    ensures PreviewRows(site, views, readingTime, s, us[..i + 1]) == PreviewRows(site, views, readingTime, s, us[..i])
  {
    assert us[..i + 1][..i] == us[..i];
  }

  lemma ListedSnoc(us: seq<User>, u: User)
    ensures Listed(us + [u]) == Listed(us) + (if u.id in ExcludedAdmins then [] else [u])
  {
    assert (us + [u])[..|us|] == us;
  }

  lemma CountsSnoc(us: seq<User>, u: User, posts: seq<Post>, views: map<int, int>, readingTime: map<int, int>)
    ensures var g := GlobalCounts(us, posts, views, readingTime);
            var t := SumTotals(PostsOf(posts, u.id), views, readingTime);
            GlobalCounts(us + [u], posts, views, readingTime) == Counts(g.views + t.views, g.readingTime + t.readingTime)
  {
    assert (us + [u])[..|us|] == us;
  }

  /** Every row belongs to a listed user with views or reading time, and
      shows their sums; never an excluded administrator. */
  lemma {:induction false} PreviewRowsSound(site: Site, views: map<int, int>, readingTime: map<int, int>, s: Settings, us: seq<User>)
    ensures forall r :: r in PreviewRows(site, views, readingTime, s, us) ==>
              && r.author !in ExcludedAdmins
              && (exists u :: u in us && u.id == r.author)
              && r.views == AuthorTotals(site, views, readingTime, r.author).views
              && r.readingTime == AuthorTotals(site, views, readingTime, r.author).readingTime
              && (r.views > 0 || r.readingTime > 0)
  {
    if us != [] {
      var front := us[..|us| - 1];
      PreviewRowsSound(site, views, readingTime, s, front);
      assert forall w :: w in front ==> w in us;
    }
  }

  /** Every listed user with views or reading time has a row. */
  lemma {:induction false} PreviewRowsComplete(site: Site, views: map<int, int>, readingTime: map<int, int>, s: Settings, us: seq<User>)
    ensures forall u :: u in us && u.id !in ExcludedAdmins
              && (AuthorTotals(site, views, readingTime, u.id).views > 0 || AuthorTotals(site, views, readingTime, u.id).readingTime > 0)
              ==> exists r :: r in PreviewRows(site, views, readingTime, s, us) && r.author == u.id
  {
    if us != [] {
      var front := us[..|us| - 1];
      var u := us[|us| - 1];
      PreviewRowsComplete(site, views, readingTime, s, front);
      var rows := PreviewRows(site, views, readingTime, s, us);
      var rest := PreviewRows(site, views, readingTime, s, front);
      assert forall r :: r in rest ==> r in rows;
      forall w | w in us && w.id !in ExcludedAdmins
                 && (AuthorTotals(site, views, readingTime, w.id).views > 0 || AuthorTotals(site, views, readingTime, w.id).readingTime > 0)
        ensures exists r :: r in rows && r.author == w.id
      {
        if w != u {
          assert w in front;
        } else {
          assert rows[|rows| - 1].author == u.id;
        }
      }
    }
  }

  /** With the pay-per-view method, every row shows what
      `calculate_author_payout` pays the author before any reset. */
  lemma {:induction false} PreviewMatchesPayPerView(site: Site, views: map<int, int>, readingTime: map<int, int>, s: Settings, us: seq<User>)
    requires s.calculationMethod != "budget"
    ensures forall r :: r in PreviewRows(site, views, readingTime, s, us) ==>
              r.payout == AuthorPayout(site, views, readingTime, s, r.author)
  {
    if us != [] {
      var u := us[|us| - 1];
      PreviewMatchesPayPerView(site, views, readingTime, s, us[..|us| - 1]);
      if u.id !in ExcludedAdmins {
        var t := AuthorTotals(site, views, readingTime, u.id);
        var g := GlobalCounts(Listed(us), site.posts, views, readingTime);
        var h := GlobalCounts(EligibleUsers(site.users), site.posts, views, readingTime);
        PayPerViewPayout(s, t, g.views, g.readingTime);
        PayPerViewPayout(s, t, h.views, h.readingTime);
      }
    }
  }

  /** The running totals make a payout depend on the listing order: two
      authors with the same sums, 100 to share, get 100 and 50. */
  lemma RunningTotalsExample(site: Site, views: map<int, int>, readingTime: map<int, int>, s: Settings)
    requires site == Site([User(3, {"author"}), User(4, {"author"})], [Post(10, 3, 10), Post(20, 4, 10)])
    requires views == map[10 := 10, 20 := 10] && readingTime == map[10 := 10, 20 := 10]
    requires s == Settings(100.0, 0.0, "budget")
    ensures Preview(site, views, readingTime, s) == [PreviewRow(3, 10, 10, 100.0), PreviewRow(4, 10, 10, 50.0)]
  {
    ExampleTotals(site, views, readingTime);
    ExamplePayouts(s);
    TwoEqualAuthors(site, views, readingTime, s, site.users[0], site.users[1]);
  }

  /** Two listed authors with the sums of the example, listed in that
      order, get 100 and 50. */
  lemma TwoEqualAuthors(site: Site, views: map<int, int>, readingTime: map<int, int>, s: Settings, u3: User, u4: User)
    requires u3.id == 3 && u4.id == 4 && EligibleUsers(site.users) == [u3, u4]
    requires AuthorTotals(site, views, readingTime, 3) == Totals(10, 10, 10)
    requires AuthorTotals(site, views, readingTime, 4) == Totals(10, 10, 10)
    requires Payout(s, Totals(10, 10, 10), 10, 10) == 100.0
    requires Payout(s, Totals(10, 10, 10), 20, 20) == 50.0
    ensures Preview(site, views, readingTime, s) == [PreviewRow(3, 10, 10, 100.0), PreviewRow(4, 10, 10, 50.0)]
  {
    var us := [u3, u4];
    assert us[..2] == us;
    FirstRow(site, views, readingTime, s, us);
    SecondRow(site, views, readingTime, s, us);
  }

  lemma FirstRow(site: Site, views: map<int, int>, readingTime: map<int, int>, s: Settings, us: seq<User>)
    requires |us| == 2 && us[0].id == 3
    requires AuthorTotals(site, views, readingTime, 3) == Totals(10, 10, 10)
    requires Payout(s, Totals(10, 10, 10), 10, 10) == 100.0
    ensures GlobalCounts(Listed(us[..1]), site.posts, views, readingTime) == Counts(10, 10)
    ensures PreviewRows(site, views, readingTime, s, us[..1]) == [PreviewRow(3, 10, 10, 100.0)]
  {
    assert us[..0] == [];
    TotalsStep(site, views, readingTime, us, 0, 0, 0);
    RowsStepActive(site, views, readingTime, s, us, 0, [], 10, 10);
  }

  lemma SecondRow(site: Site, views: map<int, int>, readingTime: map<int, int>, s: Settings, us: seq<User>)
    requires |us| == 2 && us[1].id == 4
    requires AuthorTotals(site, views, readingTime, 4) == Totals(10, 10, 10)
    requires Payout(s, Totals(10, 10, 10), 20, 20) == 50.0
    requires GlobalCounts(Listed(us[..1]), site.posts, views, readingTime) == Counts(10, 10)
    requires PreviewRows(site, views, readingTime, s, us[..1]) == [PreviewRow(3, 10, 10, 100.0)]
    ensures PreviewRows(site, views, readingTime, s, us[..2]) == [PreviewRow(3, 10, 10, 100.0), PreviewRow(4, 10, 10, 50.0)]
  {
    TotalsStep(site, views, readingTime, us, 1, 10, 10);
    RowsStepActive(site, views, readingTime, s, us, 1, [PreviewRow(3, 10, 10, 100.0)], 20, 20);
  }

  lemma ExampleTotals(site: Site, views: map<int, int>, readingTime: map<int, int>)
    requires site == Site([User(3, {"author"}), User(4, {"author"})], [Post(10, 3, 10), Post(20, 4, 10)])
    requires views == map[10 := 10, 20 := 10] && readingTime == map[10 := 10, 20 := 10]
    ensures EligibleUsers(site.users) == site.users
    ensures AuthorTotals(site, views, readingTime, 3) == Totals(10, 10, 10)
    ensures AuthorTotals(site, views, readingTime, 4) == Totals(10, 10, 10)
  {
    assert PostsOf(site.posts, 3) == [Post(10, 3, 10)];
    assert PostsOf(site.posts, 4) == [Post(20, 4, 10)];
    assert [Post(10, 3, 10)][..0] == [];
    assert [Post(20, 4, 10)][..0] == [];
    assert Counter(views, 10) == 10 && Counter(readingTime, 10) == 10;
    assert Counter(views, 20) == 10 && Counter(readingTime, 20) == 10;
    assert SumTotals([Post(10, 3, 10)], views, readingTime) == Totals(10, 10, 10);
    assert SumTotals([Post(20, 4, 10)], views, readingTime) == Totals(10, 10, 10);
  }

  lemma ExamplePayouts(s: Settings)
    requires s == Settings(100.0, 0.0, "budget")
    ensures Payout(s, Totals(10, 10, 10), 10, 10) == 100.0
    ensures Payout(s, Totals(10, 10, 10), 20, 20) == 50.0
  {
    assert AvgSecondsPerWord(Totals(10, 10, 10)) == 1.0;
    BudgetPayout(s, Totals(10, 10, 10), 10, 10);
    BudgetPayout(s, Totals(10, 10, 10), 20, 20);
  }
}
