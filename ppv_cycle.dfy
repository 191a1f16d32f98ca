/** The payout cycle of the Pay Per View Manager dashboard (the
    `ppv_submit_payout` branch): for every author or editor other than the
    excluded administrators, each post with views or reading time gets one
    row in the payout log, and then both of its counters are deleted. */
module PayoutCycle {

  import opened PpvModel

  /** A row of the `ppv_payout_logs` table. */
  datatype LogRow = LogRow(authorId: int, views: int, readingTime: int, payout: real, date: int)

  /** What a cycle changes: the two post meta counters and the log table. */
  datatype Ledger = Ledger(views: map<int, int>, readingTime: map<int, int>, logs: seq<LogRow>)

  /** The cycle's test for a post: views or reading time above 0. */
  predicate HasActivity(views: map<int, int>, readingTime: map<int, int>, postId: int)
  {
    Counter(views, postId) > 0 || Counter(readingTime, postId) > 0
  }

  /** One post of author `a`: when active, a log row with its counters and
      the author's payout computed from the counters as they stand at that
      moment, then both counters deleted. */
  function PayPost(site: Site, s: Settings, now: int, a: int, p: Post, l: Ledger): Ledger
  {
    var v := Counter(l.views, p.id);
    var r := Counter(l.readingTime, p.id);
    if v > 0 || r > 0 then
      var row := LogRow(a, v, r, AuthorPayout(site, l.views, l.readingTime, s, a), now);
      Ledger(l.views - {p.id}, l.readingTime - {p.id}, l.logs + [row])
    else l
  }

  /** The posts of author `a`, in order. */
  function PayPosts(site: Site, s: Settings, now: int, a: int, ps: seq<Post>, l: Ledger): Ledger
  {
    if ps == [] then l else PayPosts(site, s, now, a, ps[1..], PayPost(site, s, now, a, ps[0], l))
  }

  /** The users `us`, in order, skipping the excluded administrators. */
  function PayAuthors(site: Site, s: Settings, now: int, us: seq<User>, l: Ledger): Ledger
  {
    if us == [] then l
    else
      PayAuthors(site, s, now, us[1..], AuthorStep(site, s, now, us[0], l))
  }

  /** One whole payout cycle. */
  function RunCycle(site: Site, s: Settings, now: int, l: Ledger): Ledger
  {
    PayAuthors(site, s, now, EligibleUsers(site.users), l)
  }

  // ---------------------------------------------------------------------
  // A reference description of the cycle's effect, from the counters as
  // they stand before the cycle.

  predicate DistinctIds(ps: seq<Post>)
  {
    forall i, j :: 0 <= i < j < |ps| ==> ps[i].id != ps[j].id
  }

  predicate DistinctUsers(us: seq<User>)
  {
    forall i, j :: 0 <= i < j < |us| ==> us[i].id != us[j].id
  }

  function Ids(ps: seq<Post>): set<int>
  {
    set p | p in ps :: p.id
  }

  /** The posts of `ps` with activity. */
  function ActivePosts(ps: seq<Post>, views: map<int, int>, readingTime: map<int, int>): (r: seq<Post>)
    ensures forall p :: p in r <==> p in ps && HasActivity(views, readingTime, p.id)
  {
    if ps == [] then []
    else (if HasActivity(views, readingTime, ps[0].id) then [ps[0]] else []) + ActivePosts(ps[1..], views, readingTime)
  }

  /** The posts of `u` the cycle pays: none for an excluded administrator. */
  function OwnPaid(site: Site, u: User, views: map<int, int>, readingTime: map<int, int>): seq<Post>
  {
    if u.id in ExcludedAdmins then [] else ActivePosts(PostsOf(site.posts, u.id), views, readingTime)
  }

  /** The posts a cycle over `us` pays, in the order it pays them. */
  function PaidPosts(site: Site, us: seq<User>, views: map<int, int>, readingTime: map<int, int>): seq<Post>
  {
    if us == [] then []
    else
      OwnPaid(site, us[0], views, readingTime) + PaidPosts(site, us[1..], views, readingTime)
  }

  /** What a log row records apart from the payout. */
  datatype Entry = Entry(authorId: int, views: int, readingTime: int, date: int)

  function Entries(rows: seq<LogRow>): (r: seq<Entry>)
    ensures |r| == |rows|
  {
    if rows == [] then [] else [Entry(rows[0].authorId, rows[0].views, rows[0].readingTime, rows[0].date)] + Entries(rows[1..])
  }

  /** The entries a cycle at time `now` writes for the posts `ps`. */
  function Planned(ps: seq<Post>, views: map<int, int>, readingTime: map<int, int>, now: int): (r: seq<Entry>)
    ensures |r| == |ps|
  {
    if ps == [] then []
    else [Entry(ps[0].author, Counter(views, ps[0].id), Counter(readingTime, ps[0].id), now)] + Planned(ps[1..], views, readingTime, now)
  }

  /** An author the cycle pays: an author or editor who is not excluded. */
  ghost predicate Payable(site: Site, a: int)
  {
    a !in ExcludedAdmins && exists u :: u in site.users && u.id == a && IsEligible(u)
  }

  // ---------------------------------------------------------------------
  // Helper lemmas.

  lemma {:induction false} EntriesAppend(a: seq<LogRow>, b: seq<LogRow>)
    ensures Entries(a + b) == Entries(a) + Entries(b)
  {
    if a != [] {
      assert (a + b)[0] == a[0] && (a + b)[1..] == a[1..] + b;
      EntriesAppend(a[1..], b);
    } else {
      assert a + b == b;
    }
  }

  lemma {:induction false} PlannedAppend(a: seq<Post>, b: seq<Post>, views: map<int, int>, readingTime: map<int, int>, now: int)
    ensures Planned(a + b, views, readingTime, now) == Planned(a, views, readingTime, now) + Planned(b, views, readingTime, now)
  {
    if a != [] {
      assert (a + b)[0] == a[0] && (a + b)[1..] == a[1..] + b;
      PlannedAppend(a[1..], b, views, readingTime, now);
    } else {
      assert a + b == b;
    }
  }

  lemma DistinctTail(ps: seq<Post>)
    requires ps != [] && DistinctIds(ps)
    ensures DistinctIds(ps[1..]) && ps[0].id !in Ids(ps[1..])
  {
  }

  lemma DistinctConcat(a: seq<Post>, b: seq<Post>)
    requires DistinctIds(a) && DistinctIds(b) && Ids(a) !! Ids(b)
    ensures DistinctIds(a + b)
  {
    var c := a + b;
    forall i, j | 0 <= i < j < |c| ensures c[i].id != c[j].id {
      if j >= |a| && i < |a| {
        assert c[i] in a && c[j] in b;
        assert c[i].id in Ids(a) && c[j].id in Ids(b);
      }
      else if i >= |a| {
        assert c[i] == b[i - |a|] && c[j] == b[j - |a|];
      }
    }
  }

  lemma {:induction false} PostsOfDistinct(posts: seq<Post>, a: int)
    requires DistinctIds(posts)
    ensures DistinctIds(PostsOf(posts, a))
  {
    if posts != [] {
      DistinctTail(posts);
      PostsOfDistinct(posts[1..], a);
      PostsOfMembers(posts[1..], a);
      var head := if posts[0].author == a then [posts[0]] else [];
      forall q | q in PostsOf(posts[1..], a) ensures q.id != posts[0].id {
        assert q in posts[1..];
        assert q.id in Ids(posts[1..]);
      }
      DistinctConcat(head, PostsOf(posts[1..], a));
    }
  }

  lemma {:induction false} ActiveDistinct(ps: seq<Post>, views: map<int, int>, readingTime: map<int, int>)
    requires DistinctIds(ps)
    ensures DistinctIds(ActivePosts(ps, views, readingTime))
  {
    if ps != [] {
      DistinctTail(ps);
      ActiveDistinct(ps[1..], views, readingTime);
      var head := if HasActivity(views, readingTime, ps[0].id) then [ps[0]] else [];
      forall q | q in ActivePosts(ps[1..], views, readingTime) ensures q.id != ps[0].id {
        assert q.id in Ids(ps[1..]);
      }
      DistinctConcat(head, ActivePosts(ps[1..], views, readingTime));
    }
  }

  lemma {:induction false} EligibleDistinct(users: seq<User>)
    requires DistinctUsers(users)
    ensures DistinctUsers(EligibleUsers(users))
  {
    if users != [] {
      EligibleDistinct(users[1..]);
      EligibleUsersMembers(users[1..]);
      var head := if IsEligible(users[0]) then [users[0]] else [];
      var tail := EligibleUsers(users[1..]);
      var c := head + tail;
      forall i, j | 0 <= i < j < |c| ensures c[i].id != c[j].id {
        if i < |head| {
          assert c[j] in users[1..];
          var k :| 0 <= k < |users[1..]| && users[1..][k] == c[j];
          assert users[k + 1] == c[j];
        } else {
          assert c[i] == tail[i - |head|] && c[j] == tail[j - |head|];
        }
      }
    }
  }

  /** Active posts are chosen by their counters only. */
  lemma {:induction false} ActiveAgrees(ps: seq<Post>, v1: map<int, int>, r1: map<int, int>, v2: map<int, int>, r2: map<int, int>)
    requires forall p :: p in ps ==> Counter(v1, p.id) == Counter(v2, p.id) && Counter(r1, p.id) == Counter(r2, p.id)
    ensures ActivePosts(ps, v1, r1) == ActivePosts(ps, v2, r2)
  {
    if ps != [] {
      ActiveAgrees(ps[1..], v1, r1, v2, r2);
    }
  }

  lemma {:induction false} PlannedAgrees(ps: seq<Post>, v1: map<int, int>, r1: map<int, int>, v2: map<int, int>, r2: map<int, int>, now: int)
    requires forall p :: p in ps ==> Counter(v1, p.id) == Counter(v2, p.id) && Counter(r1, p.id) == Counter(r2, p.id)
    ensures Planned(ps, v1, r1, now) == Planned(ps, v2, r2, now)
  {
    if ps != [] {
      PlannedAgrees(ps[1..], v1, r1, v2, r2, now);
    }
  }

  lemma IdsAppend(a: seq<Post>, b: seq<Post>)
    ensures Ids(a + b) == Ids(a) + Ids(b)
  {
  }

  lemma IdsCons(ps: seq<Post>)
    requires ps != []
    ensures Ids(ps) == {ps[0].id} + Ids(ps[1..])
  {
    assert forall p :: p in ps <==> p == ps[0] || p in ps[1..];
  }

  lemma MapMinusTwice(m: map<int, int>, a: set<int>, b: set<int>)
    ensures (m - a) - b == m - (a + b)
  {
  }

  // ---------------------------------------------------------------------
  // The effect of the cycle.

  /** One post: its counters are deleted and its row written exactly when
      it is active. */
  lemma PayPostEffect(site: Site, s: Settings, now: int, a: int, p: Post, l: Ledger)
    requires p.author == a
    ensures var l1 := PayPost(site, s, now, a, p, l);
            var head := if HasActivity(l.views, l.readingTime, p.id) then [p] else [];
            && l1.views == l.views - Ids(head)
            && l1.readingTime == l.readingTime - Ids(head)
            && Entries(l1.logs) == Entries(l.logs) + Planned(head, l.views, l.readingTime, now)
  {
    var head := if HasActivity(l.views, l.readingTime, p.id) then [p] else [];
    assert Ids(head) == if head == [] then {} else {p.id};
    var l1 := PayPost(site, s, now, a, p, l);
    if head != [] {
      EntriesAppend(l.logs, [l1.logs[|l1.logs| - 1]]);
    }
  }

  /** An active post: its row carries its counters and `payout`, the
      author's payout at that moment. */
  lemma PayPostActive(site: Site, s: Settings, now: int, a: int, p: Post, l: Ledger, payout: real)
    requires HasActivity(l.views, l.readingTime, p.id)
    requires payout == AuthorPayout(site, l.views, l.readingTime, s, a)
    ensures PayPost(site, s, now, a, p, l)
            == Ledger(l.views - {p.id}, l.readingTime - {p.id},
                      l.logs + [LogRow(a, Counter(l.views, p.id), Counter(l.readingTime, p.id), payout, now)])
  {
  }

  /** An inactive post changes nothing. */
  lemma PayPostIdle(site: Site, s: Settings, now: int, a: int, p: Post, l: Ledger)
    requires !HasActivity(l.views, l.readingTime, p.id)
    ensures PayPost(site, s, now, a, p, l) == l
  {
  }

  /** The posts are paid front to back. */
  lemma PayPostsUnroll(site: Site, s: Settings, now: int, a: int, ps: seq<Post>, l: Ledger)
    requires ps != []
    ensures PayPosts(site, s, now, a, ps, l) == PayPosts(site, s, now, a, ps[1..], PayPost(site, s, now, a, ps[0], l))
  {
  }

  /** After the first of the posts `ps`, the counters of the others are
      as they were. */
  lemma FirstPostLeavesOthers(site: Site, s: Settings, now: int, a: int, ps: seq<Post>, l: Ledger)
    requires ps != [] && DistinctIds(ps)
    ensures var l1 := PayPost(site, s, now, a, ps[0], l);
            && ActivePosts(ps[1..], l1.views, l1.readingTime) == ActivePosts(ps[1..], l.views, l.readingTime)
            && Planned(ActivePosts(ps[1..], l.views, l.readingTime), l1.views, l1.readingTime, now)
               == Planned(ActivePosts(ps[1..], l.views, l.readingTime), l.views, l.readingTime, now)
  {
    var l1 := PayPost(site, s, now, a, ps[0], l);
    DistinctTail(ps);
    forall q | q in ps[1..]
      ensures Counter(l1.views, q.id) == Counter(l.views, q.id)
      ensures Counter(l1.readingTime, q.id) == Counter(l.readingTime, q.id)
    {
      assert q.id in Ids(ps[1..]);
    }
    ActiveAgrees(ps[1..], l1.views, l1.readingTime, l.views, l.readingTime);
    PlannedAgrees(ActivePosts(ps[1..], l.views, l.readingTime), l1.views, l1.readingTime, l.views, l.readingTime, now);
  }

  /** Paying the posts `ps` of author `a` (distinct posts) deletes exactly
      the counters of the active ones. */
  lemma {:induction false} PayPostsCounters(site: Site, s: Settings, now: int, a: int, ps: seq<Post>, l: Ledger)
    requires DistinctIds(ps)
    requires forall p :: p in ps ==> p.author == a
    ensures var l' := PayPosts(site, s, now, a, ps, l);
            var paid := ActivePosts(ps, l.views, l.readingTime);
            && l'.views == l.views - Ids(paid)
            && l'.readingTime == l.readingTime - Ids(paid)
  {
    if ps != [] {
      var p := ps[0];
      var l1 := PayPost(site, s, now, a, p, l);
      PayPostEffect(site, s, now, a, p, l);
      FirstPostLeavesOthers(site, s, now, a, ps, l);
      DistinctTail(ps);
      PayPostsCounters(site, s, now, a, ps[1..], l1);
      var rest := ActivePosts(ps[1..], l.views, l.readingTime);
      var head := if HasActivity(l.views, l.readingTime, p.id) then [p] else [];
      assert ActivePosts(ps, l.views, l.readingTime) == head + rest;
      IdsAppend(head, rest);
      MapMinusTwice(l.views, Ids(head), Ids(rest));
      MapMinusTwice(l.readingTime, Ids(head), Ids(rest));
    }
  }

  /** Paying posts only appends to the log. */
  lemma {:induction false} PayPostsKeepsLogs(site: Site, s: Settings, now: int, a: int, ps: seq<Post>, l: Ledger)
    ensures var l' := PayPosts(site, s, now, a, ps, l);
            |l.logs| <= |l'.logs| && l'.logs[..|l.logs|] == l.logs
  {
    if ps != [] {
      var l1 := PayPost(site, s, now, a, ps[0], l);
      PayPostsKeepsLogs(site, s, now, a, ps[1..], l1);
    }
  }

  /** Paying the posts `ps` of author `a` (distinct posts) appends one row
      per active post, in order, with its counters as they stood before. */
  lemma {:induction false} PayPostsLogs(site: Site, s: Settings, now: int, a: int, ps: seq<Post>, l: Ledger)
    requires DistinctIds(ps)
    requires forall p :: p in ps ==> p.author == a
    ensures Entries(PayPosts(site, s, now, a, ps, l).logs)
            == Entries(l.logs) + Planned(ActivePosts(ps, l.views, l.readingTime), l.views, l.readingTime, now)
    decreases |ps|, 1
  {
    if ps == [] {
      assert Entries(l.logs) + [] == Entries(l.logs);
    } else {
      var p := ps[0];
      var l1 := PayPost(site, s, now, a, p, l);
      var rest := ActivePosts(ps[1..], l.views, l.readingTime);
      var head := if HasActivity(l.views, l.readingTime, p.id) then [p] else [];
      assert ActivePosts(ps, l.views, l.readingTime) == head + rest;
      PayPostEffect(site, s, now, a, p, l);
      LaterPostsLogs(site, s, now, a, ps, l);
      PlannedAppend(head, rest, l.views, l.readingTime, now);
      Chain(Entries(l.logs), Entries(l1.logs), Entries(PayPosts(site, s, now, a, ps[1..], l1).logs),
            Planned(head, l.views, l.readingTime, now), Planned(rest, l.views, l.readingTime, now),
            Planned(head + rest, l.views, l.readingTime, now));
    }
  }

  /** The rows written for the posts after the first are those planned
      from the counters as they stood before. */
  lemma {:induction false} LaterPostsLogs(site: Site, s: Settings, now: int, a: int, ps: seq<Post>, l: Ledger)
    requires ps != [] && DistinctIds(ps)
    requires forall p :: p in ps ==> p.author == a
    ensures var l1 := PayPost(site, s, now, a, ps[0], l);
            Entries(PayPosts(site, s, now, a, ps[1..], l1).logs)
            == Entries(l1.logs) + Planned(ActivePosts(ps[1..], l.views, l.readingTime), l.views, l.readingTime, now)
    decreases |ps|, 0
  {
    var l1 := PayPost(site, s, now, a, ps[0], l);
    FirstPostLeavesOthers(site, s, now, a, ps, l);
    DistinctTail(ps);
    PayPostsLogs(site, s, now, a, ps[1..], l1);
  }

  lemma SameIdSamePost(posts: seq<Post>, p: Post, q: Post)
    requires DistinctIds(posts) && p in posts && q in posts && p.id == q.id
    ensures p == q
  {
    var i :| 0 <= i < |posts| && posts[i] == p;
    var j :| 0 <= j < |posts| && posts[j] == q;
  }

  /** Whether the cycle over `us` pays a post depends only on the counters
      of the posts of the users in `us`. */
  lemma {:induction false} PaidPostsAgree(site: Site, us: seq<User>, v1: map<int, int>, r1: map<int, int>, v2: map<int, int>, r2: map<int, int>)
    requires forall p, u :: p in site.posts && u in us && p.author == u.id ==>
               Counter(v1, p.id) == Counter(v2, p.id) && Counter(r1, p.id) == Counter(r2, p.id)
    ensures PaidPosts(site, us, v1, r1) == PaidPosts(site, us, v2, r2)
  {
    if us != [] {
      var u := us[0];
      PostsOfMembers(site.posts, u.id);
      forall p | p in PostsOf(site.posts, u.id)
        ensures Counter(v1, p.id) == Counter(v2, p.id) && Counter(r1, p.id) == Counter(r2, p.id)
      {
        assert p in site.posts && u in us;
      }
      ActiveAgrees(PostsOf(site.posts, u.id), v1, r1, v2, r2);
      PaidPostsAgree(site, us[1..], v1, r1, v2, r2);
    }
  }

  /** The posts the cycle over `us` pays: the active posts of the users in
      `us` other than the excluded administrators. */
  lemma {:induction false} PaidPostsMembers(site: Site, us: seq<User>, views: map<int, int>, readingTime: map<int, int>)
    ensures forall p :: p in PaidPosts(site, us, views, readingTime) <==>
              && p in site.posts && p.author !in ExcludedAdmins
              && (exists u :: u in us && u.id == p.author)
              && HasActivity(views, readingTime, p.id)
  {
    if us != [] {
      PaidPostsMembers(site, us[1..], views, readingTime);
      PostsOfMembers(site.posts, us[0].id);
      forall p ensures p in PaidPosts(site, us, views, readingTime) <==>
              && p in site.posts && p.author !in ExcludedAdmins
              && (exists u :: u in us && u.id == p.author)
              && HasActivity(views, readingTime, p.id)
      {
        if p in site.posts && p.author !in ExcludedAdmins && HasActivity(views, readingTime, p.id) {
          if exists u :: u in us && u.id == p.author {
            var u :| u in us && u.id == p.author;
            if u != us[0] { assert u in us[1..]; }
          }
        }
      }
    }
  }

  /** Paid posts of distinct users have distinct IDs. */
  lemma {:induction false} PaidPostsDistinct(site: Site, us: seq<User>, views: map<int, int>, readingTime: map<int, int>)
    requires DistinctIds(site.posts) && DistinctUsers(us)
    ensures DistinctIds(PaidPosts(site, us, views, readingTime))
  {
    if us != [] {
      var u := us[0];
      var mine := OwnPaid(site, u, views, readingTime);
      var rest := PaidPosts(site, us[1..], views, readingTime);
      PostsOfDistinct(site.posts, u.id);
      ActiveDistinct(PostsOf(site.posts, u.id), views, readingTime);
      PaidPostsDistinct(site, us[1..], views, readingTime);
      PaidPostsMembers(site, us[1..], views, readingTime);
      PostsOfMembers(site.posts, u.id);
      forall p, q | p in mine && q in rest ensures p.id != q.id {
        var w :| w in us[1..] && w.id == q.author;
        var k :| 0 <= k < |us[1..]| && us[1..][k] == w;
        assert us[k + 1] == w && us[0].id != us[k + 1].id;
        if p.id == q.id { SameIdSamePost(site.posts, p, q); }
      }
      DistinctConcat(mine, rest);
    }
  }

  /** Deleting counters of posts of the first user leaves unchanged which
      posts of the other users the cycle pays, and what it records for them. */
  lemma RestUnaffected(site: Site, us: seq<User>, l: Ledger, d: set<int>, now: int)
    requires us != [] && DistinctIds(site.posts) && DistinctUsers(us)
    requires d <= Ids(PostsOf(site.posts, us[0].id))
    ensures PaidPosts(site, us[1..], l.views - d, l.readingTime - d) == PaidPosts(site, us[1..], l.views, l.readingTime)
    ensures Planned(PaidPosts(site, us[1..], l.views, l.readingTime), l.views - d, l.readingTime - d, now)
            == Planned(PaidPosts(site, us[1..], l.views, l.readingTime), l.views, l.readingTime, now)
  {
    PostsOfMembers(site.posts, us[0].id);
    forall p, u | p in site.posts && u in us[1..] && p.author == u.id
      ensures p.id !in d
    {
      var k :| 0 <= k < |us[1..]| && us[1..][k] == u;
      assert us[k + 1] == u && us[0].id != us[k + 1].id;
      if p.id in d {
        var q :| q in PostsOf(site.posts, us[0].id) && q.id == p.id;
        SameIdSamePost(site.posts, p, q);
      }
    }
    PaidPostsAgree(site, us[1..], l.views - d, l.readingTime - d, l.views, l.readingTime);
    PaidPostsMembers(site, us[1..], l.views, l.readingTime);
    PlannedAgrees(PaidPosts(site, us[1..], l.views, l.readingTime), l.views - d, l.readingTime - d, l.views, l.readingTime, now);
  }

  /** The step of the cycle for the first user of `us`. */
  function AuthorStep(site: Site, s: Settings, now: int, u: User, l: Ledger): Ledger
  {
    if u.id in ExcludedAdmins then l else PayPosts(site, s, now, u.id, PostsOf(site.posts, u.id), l)
  }

  /** What the step for user `u` does: the counters of the posts it pays
      deleted, one row per such post appended. */
  lemma AuthorStepEffect(site: Site, s: Settings, now: int, u: User, l: Ledger)
    requires DistinctIds(site.posts)
    ensures var l1 := AuthorStep(site, s, now, u, l);
            var mine := OwnPaid(site, u, l.views, l.readingTime);
            && Ids(mine) <= Ids(PostsOf(site.posts, u.id))
            && l1.views == l.views - Ids(mine)
            && l1.readingTime == l.readingTime - Ids(mine)
            && Entries(l1.logs) == Entries(l.logs) + Planned(mine, l.views, l.readingTime, now)
  {
    if u.id in ExcludedAdmins {
      assert Entries(l.logs) + [] == Entries(l.logs);
    } else {
      var ps := PostsOf(site.posts, u.id);
      PostsOfDistinct(site.posts, u.id);
      PostsOfMembers(site.posts, u.id);
      PayPostsCounters(site, s, now, u.id, ps, l);
      PayPostsLogs(site, s, now, u.id, ps, l);
    }
  }

  lemma {:induction false} PayAuthorsCounters(site: Site, s: Settings, now: int, us: seq<User>, l: Ledger)
    requires DistinctIds(site.posts) && DistinctUsers(us)
    ensures var l' := PayAuthors(site, s, now, us, l);
            var paid := PaidPosts(site, us, l.views, l.readingTime);
            l'.views == l.views - Ids(paid) && l'.readingTime == l.readingTime - Ids(paid)
  {
    if us != [] {
      var u := us[0];
      var mine := OwnPaid(site, u, l.views, l.readingTime);
      var l1 := AuthorStep(site, s, now, u, l);
      AuthorStepEffect(site, s, now, u, l);
      RestUnaffected(site, us, l, Ids(mine), now);
      PayAuthorsCounters(site, s, now, us[1..], l1);
      var rest := PaidPosts(site, us[1..], l.views, l.readingTime);
      assert PaidPosts(site, us, l.views, l.readingTime) == mine + rest;
      IdsAppend(mine, rest);
      MapMinusTwice(l.views, Ids(mine), Ids(rest));
      MapMinusTwice(l.readingTime, Ids(mine), Ids(rest));
    }
  }

  lemma {:induction false} PayAuthorsKeepsLogs(site: Site, s: Settings, now: int, us: seq<User>, l: Ledger)
    ensures var l' := PayAuthors(site, s, now, us, l);
            |l.logs| <= |l'.logs| && l'.logs[..|l.logs|] == l.logs
  {
    if us != [] {
      var l1 := AuthorStep(site, s, now, us[0], l);
      if us[0].id !in ExcludedAdmins {
        PayPostsKeepsLogs(site, s, now, us[0].id, PostsOf(site.posts, us[0].id), l);
      }
      PayAuthorsKeepsLogs(site, s, now, us[1..], l1);
    }
  }

  lemma {:induction false} PayAuthorsLogs(site: Site, s: Settings, now: int, us: seq<User>, l: Ledger)
    requires DistinctIds(site.posts) && DistinctUsers(us)
    ensures Entries(PayAuthors(site, s, now, us, l).logs)
            == Entries(l.logs) + Planned(PaidPosts(site, us, l.views, l.readingTime), l.views, l.readingTime, now)
    decreases |us|, 1
  {
    if us == [] {
      assert Entries(l.logs) + [] == Entries(l.logs);
    } else {
      var mine := OwnPaid(site, us[0], l.views, l.readingTime);
      var rest := PaidPosts(site, us[1..], l.views, l.readingTime);
      var l1 := AuthorStep(site, s, now, us[0], l);
      AuthorStepEffect(site, s, now, us[0], l);
      LaterAuthorsLogs(site, s, now, us, l);
      PlannedAppend(mine, rest, l.views, l.readingTime, now);
      Chain(Entries(l.logs), Entries(l1.logs), Entries(PayAuthors(site, s, now, us[1..], l1).logs),
            Planned(mine, l.views, l.readingTime, now), Planned(rest, l.views, l.readingTime, now),
            Planned(mine + rest, l.views, l.readingTime, now));
    }
  }

  lemma Chain<T>(e0: seq<T>, e1: seq<T>, e2: seq<T>, m: seq<T>, r: seq<T>, mr: seq<T>)
    requires e1 == e0 + m && e2 == e1 + r && mr == m + r
    ensures e2 == e0 + mr
  {
  }

  /** The rows the cycle writes after the first user are those planned
      from the counters as they stood before the cycle. */
  lemma {:induction false} LaterAuthorsLogs(site: Site, s: Settings, now: int, us: seq<User>, l: Ledger)
    requires us != [] && DistinctIds(site.posts) && DistinctUsers(us)
    ensures var l1 := AuthorStep(site, s, now, us[0], l);
            Entries(PayAuthors(site, s, now, us[1..], l1).logs)
            == Entries(l1.logs) + Planned(PaidPosts(site, us[1..], l.views, l.readingTime), l.views, l.readingTime, now)
    decreases |us|, 0
  {
    var l1 := AuthorStep(site, s, now, us[0], l);
    AuthorStepEffect(site, s, now, us[0], l);
    RestUnaffected(site, us, l, Ids(OwnPaid(site, us[0], l.views, l.readingTime)), now);
    PayAuthorsLogs(site, s, now, us[1..], l1);
  }

  // ---------------------------------------------------------------------
  // The whole cycle.

  /** The posts a cycle pays are exactly the active posts of payable
      authors, each once. */
  lemma PaidPostsOfSite(site: Site, views: map<int, int>, readingTime: map<int, int>)
    requires site.Valid()
    ensures var paid := PaidPosts(site, EligibleUsers(site.users), views, readingTime);
            && DistinctIds(paid)
            && forall p :: p in paid <==> p in site.posts && Payable(site, p.author) && HasActivity(views, readingTime, p.id)
  {
    var us := EligibleUsers(site.users);
    EligibleDistinct(site.users);
    PaidPostsDistinct(site, us, views, readingTime);
    PaidPostsMembers(site, us, views, readingTime);
    EligibleUsersMembers(site.users);
  }

  /** A cycle deletes the counters of exactly the posts it pays, keeps the
      existing log rows, and appends one row per paid post, in order, with
      the post's author and its counters as they stood before the cycle. */
  lemma RunCycleEffect(site: Site, s: Settings, now: int, l: Ledger)
    requires site.Valid()
    ensures var l' := RunCycle(site, s, now, l);
            var paid := PaidPosts(site, EligibleUsers(site.users), l.views, l.readingTime);
            && l'.views == l.views - Ids(paid)
            && l'.readingTime == l.readingTime - Ids(paid)
            && |l.logs| <= |l'.logs|
            && l'.logs[..|l.logs|] == l.logs
            && Entries(l'.logs[|l.logs|..]) == Planned(paid, l.views, l.readingTime, now)
  {
    var us := EligibleUsers(site.users);
    var l' := RunCycle(site, s, now, l);
    EligibleDistinct(site.users);
    PayAuthorsCounters(site, s, now, us, l);
    PayAuthorsKeepsLogs(site, s, now, us, l);
    PayAuthorsLogs(site, s, now, us, l);
    AddedEntries(l.logs, l'.logs, Planned(PaidPosts(site, us, l.views, l.readingTime), l.views, l.readingTime, now));
  }

  /** Rows appended after `before` whose entries extend `before`'s by
      `planned` have exactly `planned` as their entries. */
  lemma AddedEntries(before: seq<LogRow>, after: seq<LogRow>, planned: seq<Entry>)
    requires |before| <= |after| && after[..|before|] == before
    requires Entries(after) == Entries(before) + planned
    ensures Entries(after[|before|..]) == planned
  {
    var added := after[|before|..];
    assert after == before + added;
    EntriesAppend(before, added);
    assert Entries(added) == Entries(after)[|before|..];
  }

  // ---------------------------------------------------------------------
  // The payout column: each row's payout is the author's payout from the
  // counters left once the posts paid before it have been reset.

  function Payouts(rows: seq<LogRow>): (r: seq<real>)
    ensures |r| == |rows|
    ensures forall k :: 0 <= k < |rows| ==> r[k] == rows[k].payout
  {
    seq(|rows|, k requires 0 <= k < |rows| => rows[k].payout)
  }

  /** The payouts a cycle writes for the posts `ps`, paid in order starting
      from the counters `views` and `readingTime`. */
  function PlannedPayouts(site: Site, s: Settings, ps: seq<Post>, views: map<int, int>, readingTime: map<int, int>): (r: seq<real>)
    ensures |r| == |ps|
  {
    if ps == [] then []
    else
      [AuthorPayout(site, views, readingTime, s, ps[0].author)]
      + PlannedPayouts(site, s, ps[1..], views - {ps[0].id}, readingTime - {ps[0].id})
  }

  lemma PayoutsAppend(a: seq<LogRow>, b: seq<LogRow>)
    ensures Payouts(a + b) == Payouts(a) + Payouts(b)
  {
    assert forall k :: 0 <= k < |a + b| ==> Payouts(a + b)[k] == (Payouts(a) + Payouts(b))[k];
  }

  lemma {:induction false} PlannedPayoutsAppend(site: Site, s: Settings, a: seq<Post>, b: seq<Post>, views: map<int, int>, readingTime: map<int, int>)
    ensures PlannedPayouts(site, s, a + b, views, readingTime)
            == PlannedPayouts(site, s, a, views, readingTime)
               + PlannedPayouts(site, s, b, views - Ids(a), readingTime - Ids(a))
    decreases |a|
  {
    if a == [] {
      assert a + b == b && Ids(a) == {};
      assert views - {} == views && readingTime - {} == readingTime;
    } else {
      var x := a[0];
      assert (a + b)[0] == x && (a + b)[1..] == a[1..] + b;
      PlannedPayoutsAppend(site, s, a[1..], b, views - {x.id}, readingTime - {x.id});
      IdsCons(a);
      MapMinusTwice(views, {x.id}, Ids(a[1..]));
      MapMinusTwice(readingTime, {x.id}, Ids(a[1..]));
    }
  }

  /** The payout planned for the `k`-th post is computed from the counters
      without those of the posts before it. */
  lemma {:induction false} PlannedPayoutAt(site: Site, s: Settings, ps: seq<Post>, views: map<int, int>, readingTime: map<int, int>, k: int)
    requires 0 <= k < |ps|
    ensures PlannedPayouts(site, s, ps, views, readingTime)[k]
            == AuthorPayout(site, views - Ids(ps[..k]), readingTime - Ids(ps[..k]), s, ps[k].author)
    decreases |ps|
  {
    if k == 0 {
      assert Ids(ps[..0]) == {};
      assert views - {} == views && readingTime - {} == readingTime;
    } else {
      var x := ps[0];
      PlannedPayoutAt(site, s, ps[1..], views - {x.id}, readingTime - {x.id}, k - 1);
      assert ps[..k] == [x] + ps[1..][..k - 1];
      IdsAppend([x], ps[1..][..k - 1]);
      assert Ids([x]) == {x.id};
      MapMinusTwice(views, {x.id}, Ids(ps[1..][..k - 1]));
      MapMinusTwice(readingTime, {x.id}, Ids(ps[1..][..k - 1]));
    }
  }

  /** One post appends, when active, the author's payout from the
      counters as they stand. */
  lemma PayPostPayouts(site: Site, s: Settings, now: int, a: int, p: Post, l: Ledger)
    requires p.author == a
    ensures var head := if HasActivity(l.views, l.readingTime, p.id) then [p] else [];
            Payouts(PayPost(site, s, now, a, p, l).logs)
            == Payouts(l.logs) + PlannedPayouts(site, s, head, l.views, l.readingTime)
  {
    var l1 := PayPost(site, s, now, a, p, l);
    if HasActivity(l.views, l.readingTime, p.id) {
      PayoutsAppend(l.logs, [l1.logs[|l1.logs| - 1]]);
      assert PlannedPayouts(site, s, [p], l.views, l.readingTime)
             == [AuthorPayout(site, l.views, l.readingTime, s, a)];
    } else {
      assert Payouts(l.logs) + [] == Payouts(l.logs);
    }
  }

  /** Paying the posts `ps` of author `a` appends, per active post, the
      author's payout from the counters left at that point. */
  lemma {:induction false} PayPostsPayouts(site: Site, s: Settings, now: int, a: int, ps: seq<Post>, l: Ledger)
    requires DistinctIds(ps)
    requires forall p :: p in ps ==> p.author == a
    ensures Payouts(PayPosts(site, s, now, a, ps, l).logs)
            == Payouts(l.logs) + PlannedPayouts(site, s, ActivePosts(ps, l.views, l.readingTime), l.views, l.readingTime)
    decreases |ps|
  {
    if ps == [] {
      assert Payouts(l.logs) + [] == Payouts(l.logs);
    } else {
      var p := ps[0];
      var l1 := PayPost(site, s, now, a, p, l);
      var rest := ActivePosts(ps[1..], l.views, l.readingTime);
      var head := if HasActivity(l.views, l.readingTime, p.id) then [p] else [];
      assert ActivePosts(ps, l.views, l.readingTime) == head + rest;
      PayPostEffect(site, s, now, a, p, l);
      PayPostPayouts(site, s, now, a, p, l);
      FirstPostLeavesOthers(site, s, now, a, ps, l);
      DistinctTail(ps);
      PayPostsPayouts(site, s, now, a, ps[1..], l1);
      PlannedPayoutsAppend(site, s, head, rest, l.views, l.readingTime);
      Chain(Payouts(l.logs), Payouts(l1.logs), Payouts(PayPosts(site, s, now, a, ps[1..], l1).logs),
            PlannedPayouts(site, s, head, l.views, l.readingTime),
            PlannedPayouts(site, s, rest, l1.views, l1.readingTime),
            PlannedPayouts(site, s, head + rest, l.views, l.readingTime));
    }
  }

  /** The step for user `u` appends the payouts planned for the posts it
      pays. */
  lemma AuthorStepPayouts(site: Site, s: Settings, now: int, u: User, l: Ledger)
    requires DistinctIds(site.posts)
    ensures Payouts(AuthorStep(site, s, now, u, l).logs)
            == Payouts(l.logs) + PlannedPayouts(site, s, OwnPaid(site, u, l.views, l.readingTime), l.views, l.readingTime)
  {
    if u.id in ExcludedAdmins {
      assert Payouts(l.logs) + [] == Payouts(l.logs);
    } else {
      PostsOfDistinct(site.posts, u.id);
      PostsOfMembers(site.posts, u.id);
      PayPostsPayouts(site, s, now, u.id, PostsOf(site.posts, u.id), l);
    }
  }

  /** Over all users, the payouts appended are the planned ones for the
      paid posts, in order. */
  lemma {:induction false} PayAuthorsPayouts(site: Site, s: Settings, now: int, us: seq<User>, l: Ledger)
    requires DistinctIds(site.posts) && DistinctUsers(us)
    ensures Payouts(PayAuthors(site, s, now, us, l).logs)
            == Payouts(l.logs) + PlannedPayouts(site, s, PaidPosts(site, us, l.views, l.readingTime), l.views, l.readingTime)
    decreases |us|
  {
    if us == [] {
      assert Payouts(l.logs) + [] == Payouts(l.logs);
    } else {
      var mine := OwnPaid(site, us[0], l.views, l.readingTime);
      var rest := PaidPosts(site, us[1..], l.views, l.readingTime);
      var l1 := AuthorStep(site, s, now, us[0], l);
      AuthorStepEffect(site, s, now, us[0], l);
      AuthorStepPayouts(site, s, now, us[0], l);
      RestUnaffected(site, us, l, Ids(mine), now);
      PayAuthorsPayouts(site, s, now, us[1..], l1);
      PlannedPayoutsAppend(site, s, mine, rest, l.views, l.readingTime);
      Chain(Payouts(l.logs), Payouts(l1.logs), Payouts(PayAuthors(site, s, now, us[1..], l1).logs),
            PlannedPayouts(site, s, mine, l.views, l.readingTime),
            PlannedPayouts(site, s, rest, l1.views, l1.readingTime),
            PlannedPayouts(site, s, mine + rest, l.views, l.readingTime));
    }
  }

  /** The payouts of the rows a cycle appends are the planned ones. */
  lemma RunCyclePayouts(site: Site, s: Settings, now: int, l: Ledger)
    requires site.Valid()
    ensures var l' := RunCycle(site, s, now, l);
            var paid := PaidPosts(site, EligibleUsers(site.users), l.views, l.readingTime);
            && |l.logs| <= |l'.logs|
            && Payouts(l'.logs[|l.logs|..]) == PlannedPayouts(site, s, paid, l.views, l.readingTime)
  {
    var us := EligibleUsers(site.users);
    var l' := RunCycle(site, s, now, l);
    EligibleDistinct(site.users);
    PayAuthorsKeepsLogs(site, s, now, us, l);
    PayAuthorsPayouts(site, s, now, us, l);
    AddedPayouts(l.logs, l'.logs, PlannedPayouts(site, s, PaidPosts(site, us, l.views, l.readingTime), l.views, l.readingTime));
  }

  lemma AddedPayouts(before: seq<LogRow>, after: seq<LogRow>, planned: seq<real>)
    requires |before| <= |after| && after[..|before|] == before
    requires Payouts(after) == Payouts(before) + planned
    ensures Payouts(after[|before|..]) == planned
  {
    var added := after[|before|..];
    assert after == before + added;
    PayoutsAppend(before, added);
  }

  /** The rows a cycle appends: one per paid post, with its pre-reset
      counters, the post's author, and the cycle's date; none for an
      excluded administrator. The payout of the `k`-th row is the author's
      payout from the counters left once the `k` posts paid before it
      have been reset. */
  lemma CycleRows(site: Site, s: Settings, now: int, l: Ledger)
    requires site.Valid()
    ensures var l' := RunCycle(site, s, now, l);
            var paid := PaidPosts(site, EligibleUsers(site.users), l.views, l.readingTime);
            && |l'.logs| == |l.logs| + |paid|
            && forall k :: 0 <= k < |paid| ==>
                 var row := l'.logs[|l.logs| + k];
                 && row.authorId == paid[k].author
                 && row.authorId !in ExcludedAdmins
                 && row.views == Counter(l.views, paid[k].id)
                 && row.readingTime == Counter(l.readingTime, paid[k].id)
                 && (row.views > 0 || row.readingTime > 0)
                 && row.date == now
                 && row.payout == AuthorPayout(site, l.views - Ids(paid[..k]), l.readingTime - Ids(paid[..k]), s, paid[k].author)
  {
    var l' := RunCycle(site, s, now, l);
    var paid := PaidPosts(site, EligibleUsers(site.users), l.views, l.readingTime);
    RunCycleEffect(site, s, now, l);
    PaidPostsOfSite(site, l.views, l.readingTime);
    RunCyclePayouts(site, s, now, l);
    AppendedRows(l.logs, l'.logs, site, s, paid, l.views, l.readingTime, now);
  }

  /** Rows appended after `before` whose entries and payouts are the
      planned ones for `ps` carry, one by one, each post's author,
      counters, date and payout. */
  lemma AppendedRows(before: seq<LogRow>, after: seq<LogRow>, site: Site, s: Settings, ps: seq<Post>,
                     views: map<int, int>, readingTime: map<int, int>, now: int)
    requires |before| <= |after|
    requires Entries(after[|before|..]) == Planned(ps, views, readingTime, now)
    requires Payouts(after[|before|..]) == PlannedPayouts(site, s, ps, views, readingTime)
    requires forall p :: p in ps ==> p.author !in ExcludedAdmins && HasActivity(views, readingTime, p.id)
    ensures |after| == |before| + |ps|
    ensures forall k :: 0 <= k < |ps| ==>
              var row := after[|before| + k];
              && row.authorId == ps[k].author
              && row.authorId !in ExcludedAdmins
              && row.views == Counter(views, ps[k].id)
              && row.readingTime == Counter(readingTime, ps[k].id)
              && (row.views > 0 || row.readingTime > 0)
              && row.date == now
              && row.payout == AuthorPayout(site, views - Ids(ps[..k]), readingTime - Ids(ps[..k]), s, ps[k].author)
  {
    var added := after[|before|..];
    RowsMatch(added, ps, views, readingTime, now);
    PayoutsAt(added, site, s, ps, views, readingTime);
    assert forall k :: 0 <= k < |ps| ==> after[|before| + k] == added[k];
  }

  /** Rows whose payouts are the planned ones carry, one by one, the
      payout planned for their post. */
  lemma PayoutsAt(rows: seq<LogRow>, site: Site, s: Settings, ps: seq<Post>, views: map<int, int>, readingTime: map<int, int>)
    requires Payouts(rows) == PlannedPayouts(site, s, ps, views, readingTime)
    ensures |rows| == |ps|
    ensures forall k :: 0 <= k < |ps| ==>
              rows[k].payout == AuthorPayout(site, views - Ids(ps[..k]), readingTime - Ids(ps[..k]), s, ps[k].author)
  {
    forall k | 0 <= k < |ps|
      ensures rows[k].payout == AuthorPayout(site, views - Ids(ps[..k]), readingTime - Ids(ps[..k]), s, ps[k].author)
    {
      assert Payouts(rows)[k] == rows[k].payout;
      PlannedPayoutAt(site, s, ps, views, readingTime, k);
    }
  }

  /** Rows whose entries are the planned ones for `ps` carry, one by one,
      the posts' authors and counters. */
  lemma RowsMatch(rows: seq<LogRow>, ps: seq<Post>, views: map<int, int>, readingTime: map<int, int>, now: int)
    requires Entries(rows) == Planned(ps, views, readingTime, now)
    requires forall p :: p in ps ==> p.author !in ExcludedAdmins && HasActivity(views, readingTime, p.id)
    ensures |rows| == |ps|
    ensures forall k :: 0 <= k < |ps| ==>
              && rows[k].authorId == ps[k].author
              && rows[k].authorId !in ExcludedAdmins
              && rows[k].views == Counter(views, ps[k].id)
              && rows[k].readingTime == Counter(readingTime, ps[k].id)
              && (rows[k].views > 0 || rows[k].readingTime > 0)
              && rows[k].date == now
  {
    forall k | 0 <= k < |ps|
      ensures && rows[k].authorId == ps[k].author
              && rows[k].authorId !in ExcludedAdmins
              && rows[k].views == Counter(views, ps[k].id)
              && rows[k].readingTime == Counter(readingTime, ps[k].id)
              && (rows[k].views > 0 || rows[k].readingTime > 0)
              && rows[k].date == now
    {
      EntryAt(rows, k);
      PlannedAt(ps, views, readingTime, now, k);
      assert ps[k] in ps;
    }
  }

  lemma {:induction false} EntryAt(rows: seq<LogRow>, k: int)
    requires 0 <= k < |rows|
    ensures Entries(rows)[k] == Entry(rows[k].authorId, rows[k].views, rows[k].readingTime, rows[k].date)
  {
    if k > 0 {
      EntryAt(rows[1..], k - 1);
    }
  }

  lemma {:induction false} PlannedAt(ps: seq<Post>, views: map<int, int>, readingTime: map<int, int>, now: int, k: int)
    requires 0 <= k < |ps|
    ensures Planned(ps, views, readingTime, now)[k] == Entry(ps[k].author, Counter(views, ps[k].id), Counter(readingTime, ps[k].id), now)
  {
    if k > 0 {
      PlannedAt(ps[1..], views, readingTime, now, k - 1);
    }
  }

  /** The cycle leaves the counters of a post alone when its author is
      not payable (an excluded administrator, or not an author or editor)
      or when it has no views and no reading time above 0. */
  lemma CycleLeavesUnpaid(site: Site, s: Settings, now: int, l: Ledger, p: Post)
    requires site.Valid() && p in site.posts
    requires !Payable(site, p.author) || !HasActivity(l.views, l.readingTime, p.id)
    ensures var l' := RunCycle(site, s, now, l);
            && Counter(l'.views, p.id) == Counter(l.views, p.id)
            && Counter(l'.readingTime, p.id) == Counter(l.readingTime, p.id)
  {
    var paid := PaidPosts(site, EligibleUsers(site.users), l.views, l.readingTime);
    RunCycleEffect(site, s, now, l);
    PaidPostsOfSite(site, l.views, l.readingTime);
    if p.id in Ids(paid) {
      var q :| q in paid && q.id == p.id;
      SameIdSamePost(site.posts, p, q);
      assert false;
    }
  }

  /** Every payable active post has its counters deleted. */
  lemma CycleResetsPaid(site: Site, s: Settings, now: int, l: Ledger, p: Post)
    requires site.Valid() && p in site.posts
    requires Payable(site, p.author) && HasActivity(l.views, l.readingTime, p.id)
    ensures var l' := RunCycle(site, s, now, l);
            p.id !in l'.views && p.id !in l'.readingTime
  {
    var paid := PaidPosts(site, EligibleUsers(site.users), l.views, l.readingTime);
    RunCycleEffect(site, s, now, l);
    PaidPostsOfSite(site, l.views, l.readingTime);
    assert p.id in Ids(paid);
  }

  /** Each row carries the author's payout from the counters left at the
      time it is written, not the post's share: an author with two posts of
      10 views each, at 1 per view, gets a row paying 20 and then, once the
      first post's counters are gone, a row paying 10. */
  lemma RowsRecomputePayout()
    ensures var site := Site([User(3, {"author"})], [Post(10, 3, 0), Post(11, 3, 0)]);
            var l := Ledger(map[10 := 10, 11 := 10], map[], []);
            RunCycle(site, Settings(0.0, 1.0, "ppv"), 5, l).logs
            == [LogRow(3, 10, 0, 20.0, 5), LogRow(3, 10, 0, 10.0, 5)]
  {
    var site := Site([User(3, {"author"})], [Post(10, 3, 0), Post(11, 3, 0)]);
    var s := Settings(0.0, 1.0, "ppv");
    var l := Ledger(map[10 := 10, 11 := 10], map[], []);
    var l1 := Ledger(map[11 := 10], map[], [LogRow(3, 10, 0, 20.0, 5)]);
    RecomputeTotals(site, s, l, l1);
    var ps := site.posts;
    assert ps[1..][1..] == [];
    PayPostsUnroll(site, s, 5, 3, ps, l);
    PayPostActive(site, s, 5, 3, ps[0], l, 20.0);
    assert l.views - {10} == l1.views && l.readingTime - {10} == l1.readingTime;
    PayPostsUnroll(site, s, 5, 3, ps[1..], l1);
    PayPostActive(site, s, 5, 3, ps[1], l1, 10.0);
    assert EligibleUsers(site.users)[1..] == [];
  }

  /** The sums and payouts of the example before and after its first
      row. */
  lemma RecomputeTotals(site: Site, s: Settings, l: Ledger, l1: Ledger)
    requires site == Site([User(3, {"author"})], [Post(10, 3, 0), Post(11, 3, 0)])
    requires s == Settings(0.0, 1.0, "ppv")
    requires l == Ledger(map[10 := 10, 11 := 10], map[], [])
    requires l1 == Ledger(map[11 := 10], map[], [LogRow(3, 10, 0, 20.0, 5)])
    ensures EligibleUsers(site.users) == site.users
    ensures PostsOf(site.posts, 3) == site.posts
    ensures AuthorPayout(site, l.views, l.readingTime, s, 3) == 20.0
    ensures AuthorPayout(site, l1.views, l1.readingTime, s, 3) == 10.0
  {
    ExampleSite(site);
    TwoPostViews(site.posts, l.views, l.readingTime);
    TwoPostViews(site.posts, l1.views, l1.readingTime);
  }

  lemma ExampleSite(site: Site)
    requires site == Site([User(3, {"author"})], [Post(10, 3, 0), Post(11, 3, 0)])
    ensures EligibleUsers(site.users) == site.users
    ensures PostsOf(site.posts, 3) == site.posts
  {
    assert EligibleUsers(site.users) == site.users;
    assert PostsOf(site.posts, 3) == site.posts;
  }

  /** The views summed over the example's two posts. */
  lemma TwoPostViews(posts: seq<Post>, views: map<int, int>, readingTime: map<int, int>)
    requires posts == [Post(10, 3, 0), Post(11, 3, 0)]
    ensures SumTotals(posts, views, readingTime).views == Counter(views, 10) + Counter(views, 11)
  {
    assert posts[..1] == [Post(10, 3, 0)] && posts[..1][..0] == [];
    assert SumTotals(posts[..1], views, readingTime).views == Counter(views, 10);
  }
}
