/** The data of the Pay Per View Manager plugin and its pure calculations:
    the per-post counters kept in post meta, the aggregation of an author's
    posts, and the two payout formulas. */
module PpvModel {

  /** A WordPress user: its ID and its roles. */
  datatype User = User(id: int, roles: set<string>)

  /** A post of type `post`: its ID, its author's ID, and the word count of
      its content with the markup stripped (computed by the host). */
  datatype Post = Post(id: int, author: int, wordCount: nat)

  /** The host's users and posts, in the order its queries return them. */
  datatype Site = Site(users: seq<User>, posts: seq<Post>) {
    /** User IDs and post IDs are primary keys. */
    ghost predicate Valid()
    {
      && (forall i, j :: 0 <= i < j < |users| ==> users[i].id != users[j].id)
      && (forall i, j :: 0 <= i < j < |posts| ==> posts[i].id != posts[j].id)
    }
  }

  /** The three options `ppv_total_budget`, `ppv_pay_per_view` and
      `ppv_calculation_method`. */
  datatype Settings = Settings(totalBudget: real, payPerView: real, calculationMethod: string)

  /** The values `get_option` falls back to before the settings are saved. */
  const DefaultSettings := Settings(0.0, 0.0, "budget")

  /** The users the dashboard never pays or lists. */
  const ExcludedAdmins: set<int> := {1, 2}

  /** An author's sums over their posts. */
  datatype Totals = Totals(views: int, readingTime: int, words: nat)

  /** Sums of views and reading time over a set of authors. */
  datatype Counts = Counts(views: int, readingTime: int)

  /** A counter of `_ppv_views` or `_ppv_reading_time`: an absent meta value
      reads as 0. */
  function Counter(meta: map<int, int>, postId: int): (c: int)
    ensures postId !in meta ==> c == 0
    ensures postId in meta ==> c == meta[postId]
  {
    if postId in meta then meta[postId] else 0
  }

  /** `get_users(['role__in' => ['author', 'editor']])` matches these users. */
  predicate IsEligible(u: User)
  {
    "author" in u.roles || "editor" in u.roles
  }

  /** The users that hold the author or the editor role, in the host's order. */
  function EligibleUsers(users: seq<User>): seq<User>
  {
    if users == [] then []
    else (if IsEligible(users[0]) then [users[0]] else []) + EligibleUsers(users[1..])
  }

  /** The eligible users are exactly the authors and editors. */
  lemma {:induction false} EligibleUsersMembers(users: seq<User>)
    ensures |EligibleUsers(users)| <= |users|
    ensures forall u :: u in EligibleUsers(users) <==> u in users && IsEligible(u)
  {
    if users != [] {
      EligibleUsersMembers(users[1..]);
      assert forall u :: u in users <==> u == users[0] || u in users[1..];
    }
  }

  /** `get_posts(['author' => a, 'post_type' => 'post', ...])`: the posts of
      author `a`, in the host's order. */
  function PostsOf(posts: seq<Post>, a: int): seq<Post>
  {
    if posts == [] then []
    else (if posts[0].author == a then [posts[0]] else []) + PostsOf(posts[1..], a)
  }

  /** The posts of author `a` are exactly the posts whose author is `a`. */
  lemma {:induction false} PostsOfMembers(posts: seq<Post>, a: int)
    ensures |PostsOf(posts, a)| <= |posts|
    ensures forall p :: p in PostsOf(posts, a) <==> p in posts && p.author == a
  {
    if posts != [] {
      PostsOfMembers(posts[1..], a);
      assert forall p :: p in posts <==> p == posts[0] || p in posts[1..];
    }
  }

  /** The sums of views, reading time and words over `posts`, absent
      counters counting as 0. */
  function SumTotals(posts: seq<Post>, views: map<int, int>, readingTime: map<int, int>): Totals
  {
    if posts == [] then Totals(0, 0, 0)
    else
      var t := SumTotals(posts[..|posts| - 1], views, readingTime);
      var p := posts[|posts| - 1];
      Totals(t.views + Counter(views, p.id), t.readingTime + Counter(readingTime, p.id), t.words + p.wordCount)
  }

  /** The totals of author `a` that the dashboard and the payout calculation
      accumulate over the author's posts. */
  function AuthorTotals(site: Site, views: map<int, int>, readingTime: map<int, int>, a: int): Totals
  {
    SumTotals(PostsOf(site.posts, a), views, readingTime)
  }

  /** The views and reading time of the users in `us`, summed over all their
      posts. */
  function GlobalCounts(us: seq<User>, posts: seq<Post>, views: map<int, int>, readingTime: map<int, int>): Counts
  {
    if us == [] then Counts(0, 0)
    else
      var g := GlobalCounts(us[..|us| - 1], posts, views, readingTime);
      var t := SumTotals(PostsOf(posts, us[|us| - 1].id), views, readingTime);
      Counts(g.views + t.views, g.readingTime + t.readingTime)
  }

  /** Seconds of reading per word; 0 for an author without words. */
  function AvgSecondsPerWord(t: Totals): (r: real)
    ensures t.words == 0 ==> r == 0.0
    ensures t.words > 0 ==> r * t.words as real == t.readingTime as real
  {
    if t.words > 0 then t.readingTime as real / t.words as real else 0.0
  }

  /** The payout of an author with totals `author`, given the views and the
      reading time the budget is shared over. Any method other than exactly
      "budget" pays per view. The budget method pays the author's share of
      the views times the budget, weighted by the author's seconds per word
      over the global seconds per view; it pays nothing when either global
      figure is not positive. */
  function Payout(s: Settings, author: Totals, globalViews: int, globalReadingTime: int): (r: real)
    ensures s.calculationMethod == "budget" && (globalViews <= 0 || globalReadingTime <= 0) ==> r == 0.0
  {
    if s.calculationMethod == "budget" then
      if globalViews > 0 && globalReadingTime > 0 then
        var tv := globalViews as real;
        var tr := globalReadingTime as real;
        (author.views as real / tv) * s.totalBudget * (AvgSecondsPerWord(author) / (tr / tv))
      else 0.0
    else author.views as real * s.payPerView
  }

  /** The global views cancel out of the budget formula. */
  lemma BudgetFormulaCancels(av: real, budget: real, avg: real, tv: real, tr: real)
    requires tv > 0.0 && tr > 0.0
    ensures (av / tv) * budget * (avg / (tr / tv)) == av * budget * avg / tr
  {
    assert avg / (tr / tv) == avg * tv / tr;
    assert (av / tv) * (avg * tv / tr) == av * avg / tr;
  }

  /** `calculate_author_payout`: the payout of author `a` from the current
      counters. Its global sums run over every author and editor, the
      excluded administrators included. */
  function AuthorPayout(site: Site, views: map<int, int>, readingTime: map<int, int>, s: Settings, a: int): real
  {
    var g := GlobalCounts(EligibleUsers(site.users), site.posts, views, readingTime);
    Payout(s, AuthorTotals(site, views, readingTime, a), g.views, g.readingTime)
  }

  // ---------------------------------------------------------------------
  // Aggregation.

  /** Totals over two runs of posts add up. */
  lemma {:induction false} SumTotalsAppend(a: seq<Post>, b: seq<Post>, views: map<int, int>, readingTime: map<int, int>)
    ensures var t := SumTotals(a + b, views, readingTime);
            var ta := SumTotals(a, views, readingTime);
            var tb := SumTotals(b, views, readingTime);
            t == Totals(ta.views + tb.views, ta.readingTime + tb.readingTime, ta.words + tb.words)
  {
    if b == [] {
      assert a + b == a;
    } else {
      var b' := b[..|b| - 1];
      assert (a + b)[..|a + b| - 1] == a + b';
      assert (a + b)[|a + b| - 1] == b[|b| - 1];
      SumTotalsAppend(a, b', views, readingTime);
    }
  }

  /** Summing one more post of a run. */
  lemma SumTotalsStep(ps: seq<Post>, i: int, views: map<int, int>, readingTime: map<int, int>)
    requires 0 <= i < |ps|
    ensures var t := SumTotals(ps[..i], views, readingTime);
            SumTotals(ps[..i + 1], views, readingTime)
              == Totals(t.views + Counter(views, ps[i].id), t.readingTime + Counter(readingTime, ps[i].id), t.words + ps[i].wordCount)
  {
    assert ps[..i + 1][..i] == ps[..i];
  }

  /** Summing one more user of a run. */
  lemma GlobalCountsStep(us: seq<User>, i: int, posts: seq<Post>, views: map<int, int>, readingTime: map<int, int>)
    requires 0 <= i < |us|
    ensures var g := GlobalCounts(us[..i], posts, views, readingTime);
            var t := SumTotals(PostsOf(posts, us[i].id), views, readingTime);
            GlobalCounts(us[..i + 1], posts, views, readingTime) == Counts(g.views + t.views, g.readingTime + t.readingTime)
  {
    assert us[..i + 1][..i] == us[..i];
  }

  /** Posts without counters contribute nothing but their words. */
  lemma {:induction false} SumTotalsWithoutCounters(posts: seq<Post>, views: map<int, int>, readingTime: map<int, int>)
    requires forall p :: p in posts ==> p.id !in views && p.id !in readingTime
    ensures SumTotals(posts, views, readingTime).views == 0
    ensures SumTotals(posts, views, readingTime).readingTime == 0
  {
    if posts != [] {
      assert forall p :: p in posts[..|posts| - 1] ==> p in posts;
      SumTotalsWithoutCounters(posts[..|posts| - 1], views, readingTime);
    }
  }

  /** Non-negative counters give non-negative sums. */
  lemma {:induction false} SumTotalsNonNegative(posts: seq<Post>, views: map<int, int>, readingTime: map<int, int>)
    requires forall p :: p in posts ==> Counter(views, p.id) >= 0 && Counter(readingTime, p.id) >= 0
    ensures SumTotals(posts, views, readingTime).views >= 0
    ensures SumTotals(posts, views, readingTime).readingTime >= 0
  {
    if posts != [] {
      assert forall p :: p in posts[..|posts| - 1] ==> p in posts;
      SumTotalsNonNegative(posts[..|posts| - 1], views, readingTime);
    }
  }

  // ---------------------------------------------------------------------
  // The payout formulas.

  /** Any method other than exactly "budget" pays views times the rate. */
  lemma PayPerViewPayout(s: Settings, t: Totals, globalViews: int, globalReadingTime: int)
    requires s.calculationMethod != "budget"
    ensures Payout(s, t, globalViews, globalReadingTime) == t.views as real * s.payPerView
  {
  }

  /** With positive global figures the budget method pays the author's
      views times the budget times their seconds per word, over the global
      reading time: the global views cancel out. */
  lemma BudgetPayout(s: Settings, t: Totals, globalViews: int, globalReadingTime: int)
    requires s.calculationMethod == "budget" && globalViews > 0 && globalReadingTime > 0
    ensures Payout(s, t, globalViews, globalReadingTime)
            == t.views as real * s.totalBudget * AvgSecondsPerWord(t) / globalReadingTime as real
  {
    BudgetFormulaCancels(t.views as real, s.totalBudget, AvgSecondsPerWord(t), globalViews as real, globalReadingTime as real);
  }

  /** Under either method an author without views is paid nothing. */
  lemma NoViewsNoPayout(s: Settings, t: Totals, globalViews: int, globalReadingTime: int)
    requires t.views == 0
    ensures Payout(s, t, globalViews, globalReadingTime) == 0.0
  {
    if s.calculationMethod == "budget" && globalViews > 0 && globalReadingTime > 0 {
      BudgetPayout(s, t, globalViews, globalReadingTime);
    }
  }

  /** Non-negative counters and settings never give a negative payout. */
  lemma PayoutNonNegative(s: Settings, t: Totals, globalViews: int, globalReadingTime: int)
    requires t.views >= 0 && t.readingTime >= 0 && s.totalBudget >= 0.0 && s.payPerView >= 0.0
    ensures Payout(s, t, globalViews, globalReadingTime) >= 0.0
  {
    if s.calculationMethod != "budget" {
      assert t.views as real * s.payPerView >= 0.0;
    } else if globalViews > 0 && globalReadingTime > 0 {
      var avg := AvgSecondsPerWord(t);
      BudgetPayout(s, t, globalViews, globalReadingTime);
      assert avg >= 0.0;
      assert t.views as real * s.totalBudget >= 0.0;
      assert t.views as real * s.totalBudget * avg >= 0.0;
    }
  }

  /** The pay-per-view method is linear in the views. */
  lemma PayPerViewLinear(s: Settings, t1: Totals, t2: Totals, g1: int, g2: int, h1: int, h2: int)
    requires s.calculationMethod != "budget"
    ensures var sum := Totals(t1.views + t2.views, t1.readingTime + t2.readingTime, t1.words + t2.words);
            Payout(s, sum, g1 + g2, h1 + h2) == Payout(s, t1, g1, h1) + Payout(s, t2, g2, h2)
  {
    var sum := Totals(t1.views + t2.views, t1.readingTime + t2.readingTime, t1.words + t2.words);
    assert (t1.views + t2.views) as real * s.payPerView == t1.views as real * s.payPerView + t2.views as real * s.payPerView;
  }

  /** An author whose posts are all of the host's active authors and who
      has more views than words is paid more than the whole budget: the
      budget method does not share the budget out. */
  lemma BudgetNotShared()
    ensures var site := Site([User(3, {"author"})], [Post(10, 3, 1)]);
            var s := Settings(100.0, 0.0, "budget");
            AuthorPayout(site, map[10 := 10], map[10 := 10], s, 3) == 1000.0
  {
    var site := Site([User(3, {"author"})], [Post(10, 3, 1)]);
    var views := map[10 := 10];
    var readingTime := map[10 := 10];
    assert PostsOf(site.posts, 3) == [Post(10, 3, 1)];
    assert AuthorTotals(site, views, readingTime, 3) == Totals(10, 10, 1);
    assert EligibleUsers(site.users) == site.users;
    assert GlobalCounts(site.users, site.posts, views, readingTime) == Counts(10, 10);
  }

  /** The global sums of `calculate_author_payout` count the excluded
      administrators' posts: with an administrator as active as author 3,
      author 3 gets half of what it would get without them. */
  lemma AdminsCountInGlobalSums()
    ensures var s := Settings(100.0, 0.0, "budget");
            var views := map[10 := 10, 20 := 10];
            var readingTime := map[10 := 10, 20 := 10];
            var withAdmin := Site([User(1, {"editor"}), User(3, {"author"})], [Post(10, 3, 10), Post(20, 1, 10)]);
            var withoutAdmin := Site([User(3, {"author"})], [Post(10, 3, 10)]);
            && AuthorPayout(withAdmin, views, readingTime, s, 3) == 50.0
            && AuthorPayout(withoutAdmin, views, readingTime, s, 3) == 100.0
  {
    var views := map[10 := 10, 20 := 10];
    var readingTime := map[10 := 10, 20 := 10];
    var withAdmin := Site([User(1, {"editor"}), User(3, {"author"})], [Post(10, 3, 10), Post(20, 1, 10)]);
    var withoutAdmin := Site([User(3, {"author"})], [Post(10, 3, 10)]);
    assert IsEligible(User(1, {"editor"}));
    assert EligibleUsers(withAdmin.users) == withAdmin.users;
    assert EligibleUsers(withoutAdmin.users) == withoutAdmin.users;
    assert PostsOf(withAdmin.posts, 3) == [Post(10, 3, 10)];
    assert PostsOf(withAdmin.posts, 1) == [Post(20, 1, 10)];
    assert PostsOf(withoutAdmin.posts, 3) == [Post(10, 3, 10)];
    assert GlobalCounts(withAdmin.users[..1], withAdmin.posts, views, readingTime) == Counts(10, 10);
    assert GlobalCounts(withAdmin.users, withAdmin.posts, views, readingTime) == Counts(20, 20);
    assert GlobalCounts(withoutAdmin.users, withoutAdmin.posts, views, readingTime) == Counts(10, 10);
  }

  // ---------------------------------------------------------------------
  // Worked figures.

  /** Two posts with (10 views, 300 s, 100 words) and (5 views, 100 s,
      50 words) give 15 views, 400 s, 150 words, 8/3 s per word. */
  lemma AggregateExample()
    ensures var site := Site([User(7, {"author"})], [Post(1, 7, 100), Post(2, 7, 50)]);
            var t := AuthorTotals(site, map[1 := 10, 2 := 5], map[1 := 300, 2 := 100], 7);
            t == Totals(15, 400, 150) && AvgSecondsPerWord(t) == 8.0 / 3.0
  {
    var site := Site([User(7, {"author"})], [Post(1, 7, 100), Post(2, 7, 50)]);
    var views := map[1 := 10, 2 := 5];
    var readingTime := map[1 := 300, 2 := 100];
    assert PostsOf(site.posts, 7) == site.posts;
    assert site.posts[..1] == [Post(1, 7, 100)];
    assert [Post(1, 7, 100)][..0] == [];
    assert SumTotals([Post(1, 7, 100)], views, readingTime) == Totals(10, 300, 100);
    assert SumTotals(site.posts, views, readingTime) == Totals(15, 400, 150);
    assert 400.0 / 150.0 == 8.0 / 3.0;
  }

  /** 15 views at 2.5 per view pay 37.5. */
  lemma PayPerViewExample()
    ensures Payout(Settings(0.0, 2.5, "ppv"), Totals(15, 400, 150), 100, 2000) == 37.5
  {
  }

  /** 15 of 100 views, 8/3 s per word against 2000 s over 100 views, and
      a budget of 1000 pay 20. */
  lemma BudgetExample()
    ensures Payout(Settings(1000.0, 0.0, "budget"), Totals(15, 400, 150), 100, 2000) == 20.0
  {
    assert AvgSecondsPerWord(Totals(15, 400, 150)) == 8.0 / 3.0;
  }
}
