/** The state the Pay Per View Manager keeps in its host, and the
    operations on it: the reading-time and view counters of each post
    (post meta), the payout log table, and the three settings (options). */
module PpvStore {

  import opened Wrappers
  import opened Php
  import opened PpvModel
  import opened PayoutCycle
  import opened PayoutPreview
  import opened ReadingTime

  /** The loop over an author's posts: their views, reading time and
      words, absent counters counting as 0. */
  method AggregateAuthor(site: Site, views: map<int, int>, readingTime: map<int, int>, a: int) returns (t: Totals)
    ensures t == AuthorTotals(site, views, readingTime, a)
  {
    t := SumPosts(PostsOf(site.posts, a), views, readingTime);
  }

  /** The sums over the posts `ps`, one post at a time. */
  method SumPosts(ps: seq<Post>, views: map<int, int>, readingTime: map<int, int>) returns (t: Totals)
    ensures t == SumTotals(ps, views, readingTime)
  {
    t := Totals(0, 0, 0);
    var i := 0;
    while i < |ps|
      invariant 0 <= i <= |ps|
      invariant t == SumTotals(ps[..i], views, readingTime)
    {
      SumTotalsStep(ps, i, views, readingTime);
      t := Totals(t.views + Counter(views, ps[i].id), t.readingTime + Counter(readingTime, ps[i].id), t.words + ps[i].wordCount);
      i := i + 1;
    }
    assert ps[..i] == ps;
  }

  /** The global sums of `calculate_author_payout`: views and reading
      time over the posts of every author and editor. */
  method GlobalTotals(site: Site, views: map<int, int>, readingTime: map<int, int>) returns (g: Counts)
    ensures g == GlobalCounts(EligibleUsers(site.users), site.posts, views, readingTime)
  {
    var us := EligibleUsers(site.users);
    g := Counts(0, 0);
    var i := 0;
    while i < |us|
      invariant 0 <= i <= |us|
      invariant g == GlobalCounts(us[..i], site.posts, views, readingTime)
    {
      var t := AggregateAuthor(site, views, readingTime, us[i].id);
      assert GlobalCounts(us[..i + 1], site.posts, views, readingTime)
             == Counts(g.views + t.views, g.readingTime + t.readingTime) by {
        GlobalCountsStep(us, i, site.posts, views, readingTime);
      }
      g := Counts(g.views + t.views, g.readingTime + t.readingTime);
      i := i + 1;
    }
    assert us[..i] == us;
  }

  /** `calculate_author_payout`: the author's payout from the counters as
      they stand; the global sums are only gathered for the budget
      method. */
  method CalculateAuthorPayout(site: Site, views: map<int, int>, readingTime: map<int, int>, s: Settings, a: int) returns (r: real)
    ensures r == AuthorPayout(site, views, readingTime, s, a)
  {
    var t := AggregateAuthor(site, views, readingTime, a);
    if s.calculationMethod == "budget" {
      var g := GlobalTotals(site, views, readingTime);
      r := Payout(s, t, g.views, g.readingTime);
    } else {
      r := Payout(s, t, 0, 0);
    }
  }

  /** The dashboard's loop body for user `u`: an excluded administrator is
      skipped; any other user's sums are added to the running totals, and
      a row paid against them is added when the sums are not both zero.
      After the users `done`, it takes the table and totals to those after
      `done + [u]`. */
  method PreviewUser(site: Site, vs: map<int, int>, rs: map<int, int>, st: Settings, u: User,
                     rows: seq<PreviewRow>, totalViews: int, totalReadingTime: int, ghost done: seq<User>)
    returns (rows': seq<PreviewRow>, totalViews': int, totalReadingTime': int)
    requires rows == PreviewRows(site, vs, rs, st, done)
    requires Counts(totalViews, totalReadingTime) == GlobalCounts(Listed(done), site.posts, vs, rs)
    ensures rows' == PreviewRows(site, vs, rs, st, done + [u])
    ensures Counts(totalViews', totalReadingTime') == GlobalCounts(Listed(done + [u]), site.posts, vs, rs)
  {
    rows', totalViews', totalReadingTime' := rows, totalViews, totalReadingTime;
    PreviewRowsSnoc(site, vs, rs, st, done, u);
    if u.id !in ExcludedAdmins {
      var t := AggregateAuthor(site, vs, rs, u.id);
      totalViews' := totalViews + t.views;
      totalReadingTime' := totalReadingTime + t.readingTime;
      if t.views > 0 || t.readingTime > 0 {
        rows' := rows + [PreviewRow(u.id, t.views, t.readingTime, Payout(st, t, totalViews', totalReadingTime'))];
      }
    }
  }

  /** The loop of the dashboard over the users `us`, with the running
      totals. */
  method PreviewTable(site: Site, views: map<int, int>, readingTime: map<int, int>, s: Settings, us: seq<User>)
    returns (rows: seq<PreviewRow>)
    ensures rows == PreviewRows(site, views, readingTime, s, us)
  {
    var totalViews := 0;
    var totalReadingTime := 0;
    rows := [];
    var i := 0;
    while i < |us|
      invariant 0 <= i <= |us|
      invariant rows == PreviewRows(site, views, readingTime, s, us[..i])
      invariant Counts(totalViews, totalReadingTime) == GlobalCounts(Listed(us[..i]), site.posts, views, readingTime)
    {
      rows, totalViews, totalReadingTime := PreviewUser(site, views, readingTime, s, us[i], rows, totalViews, totalReadingTime, us[..i]);
      assert us[..i + 1] == us[..i] + [us[i]];
      i := i + 1;
    }
    assert us[..i] == us;
  }

  class Store {
    /** `_ppv_views` by post ID; a post without the meta is absent. */
    var views: map<int, int>
    /** `_ppv_reading_time` by post ID. */
    var readingTime: map<int, int>
    /** The rows of `ppv_payout_logs`, in insertion order. */
    var logs: seq<LogRow>
    var settings: Settings

    /** A fresh site: no counters, no rows, the options' defaults. */
    constructor ()
      ensures views == map[] && readingTime == map[] && logs == [] && settings == DefaultSettings
    {
      views := map[];
      readingTime := map[];
      logs := [];
      settings := DefaultSettings;
    }

    /** The ledger part of the state. */
    function Ledger(): Ledger
      reads this
    {
      PayoutCycle.Ledger(views, readingTime, logs)
    }

    /** `ppv_save_reading_time`: with both request fields present, adds the
        reported seconds to the post's reading time (an absent value reads
        as 0); with either missing, changes nothing. */
    method SaveReadingTime(postId: Option<string>, seconds: Option<string>)
      modifies this
      ensures views == old(views) && logs == old(logs) && settings == old(settings)
      ensures postId.None? || seconds.None? ==> readingTime == old(readingTime)
      ensures postId.Some? && seconds.Some? ==>
                readingTime == AddReport(old(readingTime), IntVal(postId.value), IntVal(seconds.value))
    {
      if postId.Some? && seconds.Some? {
        var id := IntVal(postId.value);
        var added := IntVal(seconds.value);
        var existing := IntVal(MetaText(readingTime, id));
        readingTime := readingTime[id := existing + added];
      }
    }

    /** `ppv_count_views` on a single post view: a counter that is absent or
        0 becomes 1, any other is incremented; off single views, or for post
        0, nothing changes. */
    method CountView(isSingle: bool, postId: int)
      modifies this
      ensures readingTime == old(readingTime) && logs == old(logs) && settings == old(settings)
      ensures !isSingle || postId == 0 ==> views == old(views)
      ensures isSingle && postId != 0 ==>
                views == old(views)[postId := if Counter(old(views), postId) != 0 then Counter(old(views), postId) + 1 else 1]
    {
      if !isSingle || postId == 0 {
        return;
      }
      var current := if postId in views then views[postId] else 0;
      views := views[postId := if current != 0 then current + 1 else 1];
    }

    /** The settings form: the three options take the submitted values. */
    method SaveSettings(totalBudget: real, payPerView: real, calculationMethod: string)
      modifies this
      ensures settings == Settings(totalBudget, payPerView, calculationMethod)
      ensures views == old(views) && readingTime == old(readingTime) && logs == old(logs)
    {
      settings := Settings(totalBudget, payPerView, calculationMethod);
    }

    /** The "Process Payouts" action at time `now`: for every author or
        editor but the excluded administrators, every post with views or
        reading time above 0 gets a log row with the author's payout at
        that moment, and then loses both counters. */
    method ProcessPayouts(site: Site, now: int)
      modifies this
      ensures Ledger() == RunCycle(site, settings, now, old(Ledger()))
      ensures settings == old(settings)
      ensures site.Valid() ==>
                var paid := PaidPosts(site, EligibleUsers(site.users), old(views), old(readingTime));
                && views == old(views) - Ids(paid)
                && readingTime == old(readingTime) - Ids(paid)
                && |old(logs)| <= |logs| && logs[..|old(logs)|] == old(logs)
                && Entries(logs[|old(logs)|..]) == Planned(paid, old(views), old(readingTime), now)
    {
      var us := EligibleUsers(site.users);
      ghost var start := Ledger();
      var i := 0;
      while i < |us|
        invariant 0 <= i <= |us|
        invariant settings == old(settings)
        invariant PayAuthors(site, settings, now, us[i..], Ledger()) == PayAuthors(site, settings, now, us, start)
      {
        assert us[i..][1..] == us[i + 1..];
        if us[i].id !in ExcludedAdmins {
          PayAuthor(site, now, us[i].id);
        }
        i := i + 1;
      }
      if site.Valid() {
        RunCycleEffect(site, settings, now, start);
      }
    }

    /** The inner loop of the payout action, over the posts of author `a`. */
    method PayAuthor(site: Site, now: int, a: int)
      modifies this
      ensures Ledger() == PayPosts(site, settings, now, a, PostsOf(site.posts, a), old(Ledger()))
      ensures settings == old(settings)
    {
      var ps := PostsOf(site.posts, a);
      var s := settings;
      var vs, rs, lg := views, readingTime, logs;
      ghost var target := PayPosts(site, s, now, a, ps, Ledger());
      var j := 0;
      while j < |ps|
        invariant 0 <= j <= |ps|
        invariant unchanged(this)
        invariant PayPosts(site, s, now, a, ps[j..], PayoutCycle.Ledger(vs, rs, lg)) == target
      {
        var p := ps[j];
        ghost var cur := PayoutCycle.Ledger(vs, rs, lg);
        assert ps[j..][1..] == ps[j + 1..];
        PayPostsUnroll(site, s, now, a, ps[j..], cur);
        var v := if p.id in vs then vs[p.id] else 0;
        var r := if p.id in rs then rs[p.id] else 0;
        if v > 0 || r > 0 {
          var payout := CalculateAuthorPayout(site, vs, rs, s, a);
          PayPostActive(site, s, now, a, p, cur, payout);
          lg := lg + [LogRow(a, v, r, payout, now)];
          vs := vs - {p.id};
          rs := rs - {p.id};
        } else {
          PayPostIdle(site, s, now, a, p, cur);
        }
        j := j + 1;
      }
      views, readingTime, logs := vs, rs, lg;
    }

    /** The "Current Period Payouts" table, from the counters as they
        stand. */
    method PreviewPayouts(site: Site) returns (rows: seq<PreviewRow>)
      ensures rows == Preview(site, views, readingTime, settings)
    {
      rows := PreviewTable(site, views, readingTime, settings, EligibleUsers(site.users));
    }
  }
}
