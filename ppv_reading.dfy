/** The reading-time counter of the Pay Per View Manager: how a stored
    counter is read back through `intval`, one report added to it, and what
    a sequence of reports adds up to. */
module ReadingTime {

  import opened Php
  import opened PpvModel

  /** `get_post_meta($id, $key, true)` on a counter: its decimal text, or
      the empty string when the post has none. */
  function MetaText(m: map<int, int>, id: int): string
  {
    if id in m then IntToString(m[id]) else ""
  }

  /** `intval` reads a stored counter back as its value, an absent one as
      0. */
  lemma IntValOfMetaText(m: map<int, int>, id: int)
    requires IntMin <= Counter(m, id) <= IntMax
    ensures IntVal(MetaText(m, id)) == Counter(m, id)
  {
    if id in m {
      IntValOfIntToString(m[id]);
    } else {
      assert SkipLeadingSpace("") == "";
    }
  }

  /** One reading-time report of `seconds` (already through `intval`) for
      post `id`: the stored value read back through `intval`, plus the
      seconds. */
  function AddReport(m: map<int, int>, id: int, seconds: int): map<int, int>
  {
    UpdatePostMeta(m, id, IntVal(MetaText(m, id)) + seconds)
  }

  /** `update_post_meta($id, $key, $value)` on a counter. */
  function UpdatePostMeta(m: map<int, int>, id: int, value: int): map<int, int>
  {
    m[id := value]
  }

  /** The reports `reports` for post `id`, one after another, each applied
      by the update rule `step`. */
  function ApplyReports(step: (map<int, int>, int, int) -> map<int, int>, m: map<int, int>, id: int, reports: seq<int>): map<int, int>
    decreases |reports|
  {
    if reports == [] then m else ApplyReports(step, step(m, id, reports[0]), id, reports[1..])
  }

  /** The reports `reports` for post `id`, one after another. */
  function AddReports(m: map<int, int>, id: int, reports: seq<int>): map<int, int>
  {
    ApplyReports(AddReport, m, id, reports)
  }

  function Sum(xs: seq<int>): int
  {
    if xs == [] then 0 else xs[0] + Sum(xs[1..])
  }

  /** The counter starting at `c` stays within the 64-bit range after each
      of the reports. */
  predicate InRangeAlong(c: int, reports: seq<int>)
    decreases |reports|
  {
    IntMin <= c <= IntMax && (reports != [] ==> InRangeAlong(c + reports[0], reports[1..]))
  }

  /** An update rule that adds the reported seconds to the counter whenever
      the counter is in range. */
  ghost predicate Adds(step: (map<int, int>, int, int) -> map<int, int>, id: int)
  {
    forall m: map<int, int>, v: int ::
      IntMin <= Counter(m, id) <= IntMax ==> step(m, id, v) == m[id := Counter(m, id) + v]
  }

  lemma {:induction false} ApplyReportsAdd(step: (map<int, int>, int, int) -> map<int, int>, m: map<int, int>, id: int, reports: seq<int>)
    requires Adds(step, id) && InRangeAlong(Counter(m, id), reports)
    ensures ApplyReports(step, m, id, reports)
            == if reports == [] then m else m[id := Counter(m, id) + Sum(reports)]
    decreases |reports|
  {
    if reports != [] {
      var rest := reports[1..];
      var x := Counter(m, id) + reports[0];
      var m1 := step(m, id, reports[0]);
      assert m1 == m[id := x];
      ApplyReportsAdd(step, m1, id, rest);
      UpdateTwice(m, id, x, x + Sum(rest));
      if rest == [] {
        UpdateTwice(m, id, x, x);
      }
    }
  }

  /** While the running value stays within the 64-bit range, a sequence of
      reports leaves the post's reading time at its prior value plus the
      sum of the reported seconds, and every other post's as it was. */
  lemma ReportsAdd(m: map<int, int>, id: int, reports: seq<int>)
    requires InRangeAlong(Counter(m, id), reports)
    ensures AddReports(m, id, reports)
            == if reports == [] then m else m[id := Counter(m, id) + Sum(reports)]
  {
    assert Adds(AddReport, id) by {
      forall m': map<int, int>, v: int | IntMin <= Counter(m', id) <= IntMax
        ensures AddReport(m', id, v) == m'[id := Counter(m', id) + v]
      {
        ReportStep(m', id, v);
        assert UpdatePostMeta(m', id, Counter(m', id) + v) == m'[id := Counter(m', id) + v];
      }
    }
    ApplyReportsAdd(AddReport, m, id, reports);
  }

  /** With the stored counter in range, `intval` reads it back exactly. */
  lemma ReportStep(m: map<int, int>, id: int, seconds: int)
    requires IntMin <= Counter(m, id) <= IntMax
    ensures AddReport(m, id, seconds) == UpdatePostMeta(m, id, Counter(m, id) + seconds)
  {
    if id in m {
      assert MetaText(m, id) == IntToString(m[id]);
      IntValOfIntToString(m[id]);
    } else {
      assert MetaText(m, id) == "";
      assert SkipLeadingSpace("") == "";
    }
  }

  lemma UpdateTwice(m: map<int, int>, id: int, x: int, y: int)
    ensures m[id := x][id := y] == m[id := y]
  {
  }

  lemma {:induction false} SumNonNegative(xs: seq<int>)
    requires forall i :: 0 <= i < |xs| ==> xs[i] >= 0
    ensures Sum(xs) >= 0
  {
    if xs != [] {
      SumNonNegative(xs[1..]);
    }
  }

  /** Non-negative reports whose total fits keep every running value in
      range. */
  lemma {:induction false} NonNegativeInRange(c: int, reports: seq<int>)
    requires 0 <= c && forall i :: 0 <= i < |reports| ==> reports[i] >= 0
    requires c + Sum(reports) <= IntMax
    ensures InRangeAlong(c, reports)
    decreases |reports|
  {
    SumNonNegative(reports);
    if reports != [] {
      SumNonNegative(reports[1..]);
      NonNegativeInRange(c + reports[0], reports[1..]);
    }
  }

  lemma {:induction false} SumAppend(a: seq<int>, b: seq<int>)
    ensures Sum(a + b) == Sum(a) + Sum(b)
  {
    if a == [] {
      assert a + b == b;
    } else {
      assert (a + b)[0] == a[0] && (a + b)[1..] == a[1..] + b;
      SumAppend(a[1..], b);
    }
  }

  /** The sum does not depend on the order of the reports. */
  lemma {:induction false} SumPermutation(a: seq<int>, b: seq<int>)
    requires multiset(a) == multiset(b)
    ensures Sum(a) == Sum(b)
    decreases |a|
  {
    if a != [] {
      assert a[0] in multiset(b);
      var i :| 0 <= i < |b| && b[i] == a[0];
      var rest := b[..i] + b[i + 1..];
      assert b == b[..i] + [b[i]] + b[i + 1..];
      assert a == [a[0]] + a[1..];
      assert multiset(b) == multiset(rest) + multiset{a[0]};
      CancelOne(multiset(a[1..]), multiset(rest), a[0]);
      SumPermutation(a[1..], rest);
      SumAppend(b[..i] + [b[i]], b[i + 1..]);
      SumAppend(b[..i], [b[i]]);
      SumAppend(b[..i], b[i + 1..]);
      assert Sum([b[i]]) == b[i];
    }
  }

  lemma CancelOne<T>(x: multiset<T>, y: multiset<T>, e: T)
    requires x + multiset{e} == y + multiset{e}
    ensures x == y
  {
    forall z ensures x[z] == y[z] {
      assert (x + multiset{e})[z] == x[z] + multiset{e}[z];
      assert (y + multiset{e})[z] == y[z] + multiset{e}[z];
    }
  }

  /** Reports of non-negative seconds whose total fits add up to the same
      reading time in whatever order they arrive. */
  lemma ReportsInAnyOrder(m: map<int, int>, id: int, a: seq<int>, b: seq<int>)
    requires multiset(a) == multiset(b)
    requires 0 <= Counter(m, id) && forall i :: 0 <= i < |a| ==> a[i] >= 0
    requires Counter(m, id) + Sum(a) <= IntMax
    ensures AddReports(m, id, a) == AddReports(m, id, b)
  {
    SumPermutation(a, b);
    forall i | 0 <= i < |b| ensures b[i] >= 0 {
      assert b[i] in multiset(a);
    }
    NonNegativeInRange(Counter(m, id), a);
    NonNegativeInRange(Counter(m, id), b);
    ReportsAdd(m, id, a);
    ReportsAdd(m, id, b);
    assert |a| == |multiset(a)| == |b|;
  }
}
