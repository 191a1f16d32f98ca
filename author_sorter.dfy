/** The Simple Author Sorter plugin: an administrator gives authors
    priority numbers, saved in the option `author_sort_order`; the admin
    page lists the authors by priority, and the main query of archive and
    home pages orders posts by their author's priority through a
    `CASE … END` clause in front of the usual ORDER BY. */
module AuthorSorter {

  import opened Wrappers
  import opened Php

  /** The priority of an author the saved order does not mention. */
  const DefaultPriority: int := 999999

  /** The tail of the CASE clause, giving unlisted authors the default
      priority. */
  const CaseEnd: string := "ELSE 999999 END"

  /** A key of a PHP array: a request key that is the text of an integer
      arrives as that integer, any other stays a string. */
  datatype Key = IntKey(id: int) | StrKey(text: string)

  /** `$_POST['author_order']`: absent, a scalar, or an array of the
      submitted priorities by key, in request order. */
  datatype PostedOrder = Missing | NotArray | Entries(entries: seq<(Key, string)>)

  /** The saved option: priorities by key, in insertion order. */
  type Order = seq<(Key, int)>

  predicate DistinctKeys<V>(xs: seq<(Key, V)>)
  {
    forall i, j :: 0 <= i < j < |xs| ==> xs[i].0 != xs[j].0
  }

  predicate HasKey<V>(xs: seq<(Key, V)>, k: Key)
  {
    exists i :: 0 <= i < |xs| && xs[i].0 == k
  }

  // ---------------------------------------------------------------------
  // Saving the order.

  /** `$order[$k] = $v`: an existing key keeps its place and takes the new
      value; a new key goes at the end. */
  function Assign(order: Order, k: Key, v: int): Order
  {
    if order == [] then [(k, v)]
    else if order[0].0 == k then [(k, v)] + order[1..]
    else [order[0]] + Assign(order[1..], k, v)
  }

  /** The loop over the posted entries, each value passed through
      `intval`. */
  function AssignAll(entries: seq<(Key, string)>): Order
  {
    if entries == [] then []
    else
      var last := entries[|entries| - 1];
      Assign(AssignAll(entries[..|entries| - 1]), last.0, IntVal(last.1))
  }

  /** The order the form saves: the posted entries, or nothing when
      `author_order` is missing or not an array. */
  function SavedOrder(posted: PostedOrder): Order
  {
    if posted.Entries? then AssignAll(posted.entries) else []
  }

  /** A key the order does not hold is appended. */
  lemma {:induction false} AssignNew(order: Order, k: Key, v: int)
    requires forall i :: 0 <= i < |order| ==> order[i].0 != k
    ensures Assign(order, k, v) == order + [(k, v)]
  {
    if order != [] {
      assert forall i :: 0 <= i < |order[1..]| ==> order[1..][i] == order[i + 1];
      AssignNew(order[1..], k, v);
    }
  }

  /** The posted entries, each value through `intval`. */
  function Coerced(entries: seq<(Key, string)>): Order
  {
    seq(|entries|, i requires 0 <= i < |entries| => (entries[i].0, IntVal(entries[i].1)))
  }

  /** With distinct posted keys (as a PHP array has), the saved order holds
      exactly the posted keys, in the posted order, each with the `intval`
      of its posted value. */
  lemma {:induction false} SavedOrderOfEntries(entries: seq<(Key, string)>)
    requires DistinctKeys(entries)
    ensures SavedOrder(Entries(entries)) == Coerced(entries)
  {
    if entries != [] {
      var front := entries[..|entries| - 1];
      var last := entries[|entries| - 1];
      DistinctFront(entries);
      SavedOrderOfEntries(front);
      AssignNew(Coerced(front), last.0, IntVal(last.1));
      CoercedSnoc(entries);
    }
  }

  lemma DistinctFront(entries: seq<(Key, string)>)
    requires DistinctKeys(entries) && entries != []
    ensures var front := entries[..|entries| - 1];
            && DistinctKeys(front)
            && forall i :: 0 <= i < |Coerced(front)| ==> Coerced(front)[i].0 != entries[|entries| - 1].0
  {
  }

  lemma CoercedSnoc(entries: seq<(Key, string)>)
    requires entries != []
    ensures var last := entries[|entries| - 1];
            Coerced(entries) == Coerced(entries[..|entries| - 1]) + [(last.0, IntVal(last.1))]
  {
  }

  /** A request without an `author_order` array saves an empty order. */
  lemma SavedOrderWithoutEntries(posted: PostedOrder)
    requires !posted.Entries?
    ensures SavedOrder(posted) == []
  {
  }

  // ---------------------------------------------------------------------
  // Priorities and the admin listing.

  /** `$saved_order[$k]` when set. */
  function Lookup(order: Order, k: Key): (r: Option<int>)
    ensures r.Some? <==> HasKey(order, k)
  {
    if order == [] then None
    else if order[0].0 == k then Some(order[0].1)
    else
      var r := Lookup(order[1..], k);
      assert HasKey(order, k) <==> HasKey(order[1..], k) by {
        if HasKey(order, k) {
          var i :| 0 <= i < |order| && order[i].0 == k;
          assert order[1..][i - 1].0 == k;
        }
        if HasKey(order[1..], k) {
          var i :| 0 <= i < |order[1..]| && order[1..][i].0 == k;
          assert order[i + 1].0 == k;
        }
      }
      r
  }

  /** The priority of author `id`: the saved one, or 999999. */
  function Priority(order: Order, id: int): int
  {
    match Lookup(order, IntKey(id))
    case Some(p) => p
    case None => DefaultPriority
  }

  /** In a saved order with distinct keys, the priority of an author is the
      value saved under the author's key, and 999999 for an author
      without one. */
  lemma {:induction false} PrioritySaved(order: Order, i: int)
    requires DistinctKeys(order)
    requires 0 <= i < |order| && order[i].0.IntKey?
    ensures Priority(order, order[i].0.id) == order[i].1
  {
    if i > 0 {
      assert order[0].0 != order[i].0;
      assert order[1..][i - 1] == order[i];
      PrioritySaved(order[1..], i - 1);
    }
  }

  lemma PriorityUnsaved(order: Order, id: int)
    requires !HasKey(order, IntKey(id))
    ensures Priority(order, id) == DefaultPriority
  {
  }

  predicate SortedByPriority(order: Order, xs: seq<int>)
  {
    forall i, j :: 0 <= i < j < |xs| ==> Priority(order, xs[i]) <= Priority(order, xs[j])
  }

  /** `a` placed in front of the first author whose priority is not below
      its own. */
  function InsertByPriority(order: Order, a: int, xs: seq<int>): (r: seq<int>)
    ensures multiset(r) == multiset(xs) + multiset{a}
  {
    if xs == [] || Priority(order, a) <= Priority(order, xs[0]) then [a] + xs
    else
      assert xs == [xs[0]] + xs[1..];
      [xs[0]] + InsertByPriority(order, a, xs[1..])
  }

  /** `usort` of the authors by priority, lowest first; authors of equal
      priority keep the order in which they were fetched. */
  function SortByPriority(order: Order, xs: seq<int>): (r: seq<int>)
    ensures multiset(r) == multiset(xs)
  {
    if xs == [] then []
    else
      assert xs == [xs[0]] + xs[1..];
      InsertByPriority(order, xs[0], SortByPriority(order, xs[1..]))
  }

  lemma {:induction false} InsertByPrioritySorted(order: Order, a: int, xs: seq<int>)
    requires SortedByPriority(order, xs)
    ensures SortedByPriority(order, InsertByPriority(order, a, xs))
  {
    if xs != [] && Priority(order, a) > Priority(order, xs[0]) {
      var rest := InsertByPriority(order, a, xs[1..]);
      InsertByPrioritySorted(order, a, xs[1..]);
      var r := [xs[0]] + rest;
      forall j | 1 <= j < |r| ensures Priority(order, xs[0]) <= Priority(order, r[j]) {
        assert r[j] in multiset(rest);
        assert r[j] in multiset(xs[1..]) + multiset{a};
        if r[j] != a {
          assert r[j] in xs[1..];
          var k :| 0 <= k < |xs[1..]| && xs[1..][k] == r[j];
          assert xs[k + 1] == r[j];
        }
      }
    }
  }

  /** The admin listing holds every fetched author as often as fetched,
      lowest priority number first. */
  lemma {:induction false} SortByPrioritySorted(order: Order, xs: seq<int>)
    ensures SortedByPriority(order, SortByPriority(order, xs))
    ensures multiset(SortByPriority(order, xs)) == multiset(xs)
  {
    if xs != [] {
      SortByPrioritySorted(order, xs[1..]);
      InsertByPrioritySorted(order, xs[0], SortByPriority(order, xs[1..]));
    }
  }

  /** The authors of `xs` whose priority is `p`, in their order in `xs`. */
  function OfPriority(order: Order, xs: seq<int>, p: int): seq<int>
  {
    if xs == [] then []
    else (if Priority(order, xs[0]) == p then [xs[0]] else []) + OfPriority(order, xs[1..], p)
  }

  lemma {:induction false} InsertByPriorityStable(order: Order, a: int, xs: seq<int>, p: int)
    ensures OfPriority(order, InsertByPriority(order, a, xs), p)
            == (if Priority(order, a) == p then [a] else []) + OfPriority(order, xs, p)
    decreases |xs|
  {
    if xs == [] || Priority(order, a) <= Priority(order, xs[0]) {
      OfPriorityCons(order, a, xs, p);
    } else {
      var x := xs[0];
      var ofA: seq<int> := if Priority(order, a) == p then [a] else [];
      var ofX: seq<int> := if Priority(order, x) == p then [x] else [];
      var tail := OfPriority(order, xs[1..], p);
      var inserted := InsertByPriority(order, a, xs[1..]);
      assert InsertByPriority(order, a, xs) == [x] + inserted;
      OfPriorityCons(order, x, inserted, p);
      InsertByPriorityStable(order, a, xs[1..], p);
      assert OfPriority(order, xs, p) == ofX + tail;
      SwapEmpty(ofX, ofA, tail);
    }
  }

  lemma SwapEmpty(u: seq<int>, v: seq<int>, t: seq<int>)
    requires u == [] || v == []
    ensures u + (v + t) == v + (u + t)
  {
    if u == [] {
      assert u + (v + t) == v + t && u + t == t;
    } else {
      assert v + t == t && v + (u + t) == u + t;
    }
  }

  lemma OfPriorityCons(order: Order, x: int, xs: seq<int>, p: int)
    ensures OfPriority(order, [x] + xs, p)
            == (if Priority(order, x) == p then [x] else []) + OfPriority(order, xs, p)
  {
    assert ([x] + xs)[1..] == xs;
  }

  /** The sort is stable: the authors of any one priority appear in the
      listing in the order in which they were fetched. */
  lemma {:induction false} SortByPriorityStable(order: Order, xs: seq<int>, p: int)
    ensures OfPriority(order, SortByPriority(order, xs), p) == OfPriority(order, xs, p)
  {
    if xs != [] {
      SortByPriorityStable(order, xs[1..], p);
      InsertByPriorityStable(order, xs[0], SortByPriority(order, xs[1..]), p);
    }
  }

  /** The comparator as written, `$priority_a - $priority_b`: a difference
      outside the 64-bit range becomes a float, which `usort` reads back as
      an integer modulo 2^64. */
  function CompareAsWritten(pa: int, pb: int): int
  {
    var d := pa - pb;
    if IntMin <= d <= IntMax then d
    else (d - IntMin) % 0x1_0000_0000_0000_0000 + IntMin
  }

  /** Two saved priorities whose difference overflows compare the wrong
      way round: the larger one is reported as the smaller. */
  lemma CompareAsWrittenMisorders(pa: int, pb: int)
    requires pa == IntMax && pb == -1
    ensures pa > pb && CompareAsWritten(pa, pb) < 0
  {
  }

  /** Within the 64-bit range the comparator as written has the sign of the
      comparison the listing uses. */
  lemma CompareAsWrittenInRange(pa: int, pb: int)
    requires IntMin <= pa - pb <= IntMax
    ensures CompareAsWritten(pa, pb) < 0 <==> pa < pb
    ensures CompareAsWritten(pa, pb) == 0 <==> pa == pb
  {
  }

  // ---------------------------------------------------------------------
  // The ORDER BY clause.

  /** The conditions of the posts query `modify_posts_order` looks at. */
  datatype Query = Query(isAdmin: bool, isMainQuery: bool, isArchive: bool, isHome: bool)

  /** The filter changes only the main query of a front-end archive or home
      page. */
  predicate Applies(q: Query)
  {
    !q.isAdmin && q.isMainQuery && (q.isArchive || q.isHome)
  }

  /** A key as interpolated into the clause: an integer in decimal, a
      string as it is. */
  function KeyText(k: Key): string
  {
    match k
    case IntKey(i) => IntToString(i)
    case StrKey(s) => s
  }

  function WhenClause(e: (Key, int)): string
  {
    "WHEN " + KeyText(e.0) + " THEN " + IntToString(e.1) + " "
  }

  function WhenClauses(order: Order): string
  {
    if order == [] then "" else WhenClause(order[0]) + WhenClauses(order[1..])
  }

  lemma {:induction false} WhenClausesSnoc(order: Order, e: (Key, int))
    ensures WhenClauses(order + [e]) == WhenClauses(order) + WhenClause(e)
  {
    if order != [] {
      assert (order + [e])[1..] == order[1..] + [e];
      assert WhenClauses(order + [e]) == WhenClause(order[0]) + WhenClauses(order[1..] + [e]);
      WhenClausesSnoc(order[1..], e);
      Assoc(WhenClause(order[0]), WhenClauses(order[1..]), WhenClause(e));
    } else {
      assert [e][1..] == [];
      assert WhenClause(e) + "" == WhenClause(e);
    }
  }

  lemma WhenClausesPrefix(es: Order, i: int)
    requires 0 <= i < |es|
    ensures WhenClauses(es[..i + 1]) == WhenClauses(es[..i]) + WhenClause(es[i])
  {
    assert es[..i + 1] == es[..i] + [es[i]];
    WhenClausesSnoc(es[..i], es[i]);
  }

  lemma Assoc(a: string, b: string, c: string)
    ensures a + b + c == a + (b + c)
  {
  }

  lemma ConsAssoc(a: string, b: string, c: string, d: string)
    ensures (a + b) + c + d == a + (b + c + d)
  {
  }

  lemma AppendAssoc(a: string, b: string, c: string, d: string)
    requires c == a + b
    ensures c + d == a + (b + d)
  {
  }

  function CaseStart(table: string): string
  {
    "CASE " + table + ".post_author "
  }

  /** `CASE <table>.post_author WHEN <key> THEN <priority> … ELSE 999999
      END`. */
  function CaseClause(table: string, order: Order): string
  {
    CaseStart(table) + WhenClauses(order) + CaseEnd
  }

  /** PHP's falsy strings, which `?:` replaces. */
  predicate Falsy(s: string)
  {
    s == "" || s == "0"
  }

  /** What the `posts_orderby` filter returns for the query's `orderby`. */
  function OrderBy(order: Order, orderby: string, q: Query, table: string): string
  {
    if !Applies(q) || order == [] then orderby
    else CaseClause(table, order) + " ASC, " + (if Falsy(orderby) then table + ".post_date DESC" else orderby)
  }

  /** The filter leaves `orderby` as it is exactly when the query is not one
      it applies to or no order is saved. */
  lemma OrderByUnchanged(order: Order, orderby: string, q: Query, table: string)
    ensures OrderBy(order, orderby, q, table) == orderby <==> !Applies(q) || order == []
  {
    if Applies(q) && order != [] {
      assert |OrderBy(order, orderby, q, table)| > |orderby|;
    }
  }

  // ---------------------------------------------------------------------
  // Reading the clause back: what the database makes of it.

  predicate StartsWith(s: string, prefix: string)
  {
    |s| >= |prefix| && s[..|prefix|] == prefix
  }

  lemma PrefixOf(prefix: string, rest: string)
    ensures StartsWith(prefix + rest, prefix) && (prefix + rest)[|prefix|..] == rest
  {
    assert (prefix + rest)[..|prefix|] == prefix;
  }

  lemma FirstCharDiffers(s: string, prefix: string)
    requires |s| > 0 && |prefix| > 0 && s[0] != prefix[0]
    ensures !StartsWith(s, prefix)
  {
    if |s| >= |prefix| {
      assert s[..|prefix|][0] == s[0];
    }
  }

  /** Reads one `WHEN <author> THEN <priority> ` branch: the author, the
      priority and the text after the branch. */
  function ParseWhen(s: string): (r: Option<(int, int, string)>)
    ensures r.Some? ==> |r.value.2| < |s|
  {
    if !StartsWith(s, "WHEN ") then None
    else
      match ParseInt(s[5..])
      case None => None
      case Some((k, t)) => ParseThen(k, t)
  }

  /** The ` THEN <priority> ` part of a branch for author `k`. */
  function ParseThen(k: int, t: string): (r: Option<(int, int, string)>)
    ensures r.Some? ==> |r.value.2| < |t|
  {
    if !StartsWith(t, " THEN ") then None
    else
      match ParseInt(t[6..])
      case None => None
      case Some((p, u)) => if StartsWith(u, " ") then Some((k, p, u[1..])) else None
  }

  /** Reads the WHEN branches and the closing `ELSE 999999 END`: the
      branches as (author, priority) pairs and the text after the clause. */
  function ParseWhens(s: string): Option<(seq<(int, int)>, string)>
    decreases |s|
  {
    if StartsWith(s, CaseEnd) then Some(([], s[|CaseEnd|..]))
    else
      match ParseWhen(s)
      case None => None
      case Some((k, p, rest)) =>
        match ParseWhens(rest)
        case None => None
        case Some((ws, v)) => Some(([(k, p)] + ws, v))
  }

  /** Reads a CASE clause on `table`'s author column. */
  function ParseCase(table: string, s: string): Option<(seq<(int, int)>, string)>
  {
    var start := CaseStart(table);
    if StartsWith(s, start) then ParseWhens(s[|start|..]) else None
  }

  /** The value of the CASE expression for a post by author `a`: the
      priority of the first branch naming `a`, else 999999. */
  function CaseValue(whens: seq<(int, int)>, a: int): int
  {
    if whens == [] then DefaultPriority
    else if whens[0].0 == a then whens[0].1
    else CaseValue(whens[1..], a)
  }

  predicate IntKeys(order: Order)
  {
    forall i :: 0 <= i < |order| ==> order[i].0.IntKey?
  }

  /** The saved order as the (author, priority) pairs of its integer keys. */
  function IntEntries(order: Order): seq<(int, int)>
    requires IntKeys(order)
  {
    seq(|order|, i requires 0 <= i < |order| && IntKeys(order) => (order[i].0.id, order[i].1))
  }

  /** Reading back the WHEN branches written for an order of integer keys
      gives its entries, and the text after them. */
  lemma {:induction false} ParseWhensOfWhenClauses(order: Order, rest: string)
    requires IntKeys(order)
    ensures ParseWhens(WhenClauses(order) + CaseEnd + rest) == Some((IntEntries(order), rest))
  {
    if order == [] {
      ParseWhensOfEmpty(order, rest);
    } else {
      ParseWhensOfWhenClauses(order[1..], rest);
      ParseWhensOfCons(order, rest);
    }
  }

  lemma ParseWhensOfEmpty(order: Order, rest: string)
    requires order == []
    ensures ParseWhens(WhenClauses(order) + CaseEnd + rest) == Some((IntEntries(order), rest))
  {
    assert WhenClauses(order) + CaseEnd + rest == CaseEnd + rest;
    assert IntEntries(order) == [];
    ParseWhensOfCaseEnd(rest);
  }

  lemma ParseWhensOfCons(order: Order, rest: string)
    requires order != [] && IntKeys(order)
    requires ParseWhens(WhenClauses(order[1..]) + CaseEnd + rest) == Some((IntEntries(order[1..]), rest))
    ensures ParseWhens(WhenClauses(order) + CaseEnd + rest) == Some((IntEntries(order), rest))
  {
    var k, p := order[0].0.id, order[0].1;
    var tail := WhenClauses(order[1..]) + CaseEnd + rest;
    assert WhenClauses(order) + CaseEnd + rest == WhenClause((IntKey(k), p)) + tail by {
      assert order[0] == (IntKey(k), p);
      ConsAssoc(WhenClause(order[0]), WhenClauses(order[1..]), CaseEnd, rest);
    }
    assert ParseWhens(WhenClause((IntKey(k), p)) + tail) == Some(([(k, p)] + IntEntries(order[1..]), rest)) by {
      ParseWhensStep(k, p, tail);
    }
    IntEntriesCons(order);
  }

  lemma IntEntriesCons(order: Order)
    requires order != [] && IntKeys(order)
    ensures IntEntries(order) == [(order[0].0.id, order[0].1)] + IntEntries(order[1..])
  {
    assert IntEntries(order)[1..] == IntEntries(order[1..]);
  }

  lemma ParseWhensOfCaseEnd(rest: string)
    ensures ParseWhens(CaseEnd + rest) == Some(([], rest))
  {
    PrefixOf(CaseEnd, rest);
  }

  /** One WHEN branch is read back as its author and priority. */
  lemma ParseWhensStep(k: int, p: int, tail: string)
    ensures ParseWhens(WhenClause((IntKey(k), p)) + tail) ==
              match ParseWhens(tail)
              case None => None
              case Some((ws, v)) => Some(([(k, p)] + ws, v))
  {
    var s := WhenClause((IntKey(k), p)) + tail;
    assert !StartsWith(s, CaseEnd) by {
      assert s[0] == 'W';
      FirstCharDiffers(s, CaseEnd);
    }
    ParseWhenOfWhenClause(k, p, tail);
  }

  lemma ParseWhenOfWhenClause(k: int, p: int, tail: string)
    ensures ParseWhen(WhenClause((IntKey(k), p)) + tail) == Some((k, p, tail))
  {
    var s := WhenClause((IntKey(k), p)) + tail;
    var after := " THEN " + IntToString(p) + " " + tail;
    WhenClauseText(k, p, tail);
    ParseIntOfIntToString(k, after);
    ParseWhenUnfold(s, k, after);
    ParseThenOfText(k, p, tail);
  }

  lemma WhenClauseText(k: int, p: int, tail: string)
    ensures var s := WhenClause((IntKey(k), p)) + tail;
            StartsWith(s, "WHEN ") && s[5..] == IntToString(k) + (" THEN " + IntToString(p) + " " + tail)
  {
    var after := " THEN " + IntToString(p) + " " + tail;
    assert KeyText(IntKey(k)) == IntToString(k);
    Regroup("WHEN ", IntToString(k), " THEN ", IntToString(p), " ", tail);
    PrefixOf("WHEN ", IntToString(k) + after);
  }

  lemma Regroup(a: string, b: string, c: string, d: string, e: string, f: string)
    ensures a + b + c + d + e + f == a + (b + (c + d + e + f))
  {
  }

  lemma ParseWhenUnfold(s: string, k: int, after: string)
    requires StartsWith(s, "WHEN ") && ParseInt(s[5..]) == Some((k, after))
    ensures ParseWhen(s) == ParseThen(k, after)
  {
  }

  lemma ParseThenOfText(k: int, p: int, tail: string)
    ensures ParseThen(k, " THEN " + IntToString(p) + " " + tail) == Some((k, p, tail))
  {
    var after := " THEN " + IntToString(p) + " " + tail;
    var last := " " + tail;
    assert StartsWith(after, " THEN ") && after[6..] == IntToString(p) + last by {
      assert after == " THEN " + (IntToString(p) + last);
      PrefixOf(" THEN ", IntToString(p) + last);
    }
    assert ParseInt(after[6..]) == Some((p, last)) by {
      ParseIntOfIntToString(p, last);
    }
    assert StartsWith(last, " ") && last[1..] == tail by {
      PrefixOf(" ", tail);
    }
    ParseThenUnfold(k, after, p, last);
  }

  lemma ParseThenUnfold(k: int, t: string, p: int, u: string)
    requires StartsWith(t, " THEN ") && ParseInt(t[6..]) == Some((p, u)) && StartsWith(u, " ")
    ensures ParseThen(k, t) == Some((k, p, u[1..]))
  {
  }

  /** Every author's rank in the CASE expression is the priority the admin
      page shows for them. */
  lemma {:induction false} CaseValueIsPriority(order: Order, a: int)
    requires IntKeys(order)
    ensures CaseValue(IntEntries(order), a) == Priority(order, a)
  {
    if order != [] {
      assert IntEntries(order)[1..] == IntEntries(order[1..]);
      CaseValueIsPriority(order[1..], a);
    }
  }

  /** When the filter applies to a query and an order of integer keys is
      saved, the result is a CASE clause ranking every author by the
      priority the admin page shows, then `ASC, ` and the query's own
      ordering, or newest first when it had none. */
  lemma OrderByRanksAuthors(order: Order, orderby: string, q: Query, table: string)
    requires Applies(q) && order != [] && IntKeys(order)
    ensures var fallback := if Falsy(orderby) then table + ".post_date DESC" else orderby;
            ParseCase(table, OrderBy(order, orderby, q, table)) == Some((IntEntries(order), " ASC, " + fallback))
    ensures forall a :: CaseValue(IntEntries(order), a) == Priority(order, a)
  {
    var fallback := if Falsy(orderby) then table + ".post_date DESC" else orderby;
    assert OrderBy(order, orderby, q, table) == CaseClause(table, order) + " ASC, " + fallback;
    Assoc(CaseClause(table, order), " ASC, ", fallback);
    ParseCaseClause(order, table, " ASC, " + fallback);
    forall a ensures CaseValue(IntEntries(order), a) == Priority(order, a) {
      CaseValueIsPriority(order, a);
    }
  }

  lemma ParseCaseClause(order: Order, table: string, rest: string)
    requires IntKeys(order)
    ensures ParseCase(table, CaseClause(table, order) + rest) == Some((IntEntries(order), rest))
  {
    var start := CaseStart(table);
    var tail := WhenClauses(order) + CaseEnd + rest;
    ConsAssoc(start, WhenClauses(order), CaseEnd, rest);
    ParseWhensOfWhenClauses(order, rest);
    PrefixOf(start, tail);
  }

  // ---------------------------------------------------------------------
  // String keys reach the clause as they were posted.

  /** A posted key that is not the text of an integer is saved as a string
      and written into the CASE clause unchanged, so it can add branches of
      its own: the one entry `"3 THEN 0 WHEN 4" => 5` is read back as two
      branches, ranking author 3 first although the admin page shows
      author 3 with no saved priority. */
  lemma StringKeyAddsBranches(table: string, rest: string)
    ensures var order := [(StrKey("3 THEN 0 WHEN 4"), 5)];
            && ParseCase(table, CaseClause(table, order) + rest) == Some(([(3, 0), (4, 5)], rest))
            && CaseValue([(3, 0), (4, 5)], 3) == 0
            && Priority(order, 3) == DefaultPriority
  {
    var order: Order := [(StrKey("3 THEN 0 WHEN 4"), 5)];
    var ids: Order := [(IntKey(3), 0), (IntKey(4), 5)];
    SameClauses(order, ids);
    assert CaseClause(table, order) == CaseClause(table, ids);
    assert IntEntries(ids) == [(3, 0), (4, 5)];
    ParseCaseClause(ids, table, rest);
    assert Lookup(order, IntKey(3)) == None by {
      assert order[0].0 != IntKey(3) && order[1..] == [];
    }
  }

  /** The string key writes the same WHEN branches as the two integer
      entries it spells out. */
  lemma SameClauses(order: Order, ids: Order)
    requires order == [(StrKey("3 THEN 0 WHEN 4"), 5)]
    requires ids == [(IntKey(3), 0), (IntKey(4), 5)]
    ensures WhenClauses(order) == WhenClauses(ids)
  {
    StringKeyClauses(order);
    IntKeyClauses(ids);
  }

  lemma StringKeyClauses(order: Order)
    requires order == [(StrKey("3 THEN 0 WHEN 4"), 5)]
    ensures WhenClauses(order) == "WHEN 3 THEN 0 WHEN 4 THEN 5 "
  {
    assert order[1..] == [];
    DigitText(5);
  }

  lemma IntKeyClauses(ids: Order)
    requires ids == [(IntKey(3), 0), (IntKey(4), 5)]
    ensures WhenClauses(ids) == "WHEN 3 THEN 0 WHEN 4 THEN 5 "
  {
    TwoClauses(ids);
    BranchText(ids[0], 3, 0);
    BranchText(ids[1], 4, 5);
    assert DigitChar(3) == '3' && DigitChar(0) == '0' && DigitChar(4) == '4' && DigitChar(5) == '5';
  }

  lemma TwoClauses(order: Order)
    requires |order| == 2
    ensures WhenClauses(order) == WhenClause(order[0]) + WhenClause(order[1])
  {
    var tail := order[1..];
    assert tail[0] == order[1] && tail[1..] == [];
    assert WhenClauses(tail) == WhenClause(order[1]) + "";
  }

  /** The WHEN branch of an author and a priority below 10. */
  lemma BranchText(e: (Key, int), a: nat, p: nat)
    requires a < 10 && p < 10 && e == (IntKey(a), p)
    ensures WhenClause(e) == "WHEN " + [DigitChar(a)] + " THEN " + [DigitChar(p)] + " "
  {
    DigitText(a);
    DigitText(p);
  }

  lemma DigitText(d: nat)
    requires d < 10
    ensures IntToString(d) == [DigitChar(d)] && DigitChar(d) == '0' + d as char
  {
  }

  /** A key through `intval`, as an author ID. */
  function IdKey(k: Key): (r: Key)
    ensures r.IntKey?
    ensures k.IntKey? ==> r == k
  {
    match k
    case IntKey(_) => k
    case StrKey(s) => IntKey(IntVal(s))
  }

  function IdEntries(entries: seq<(Key, string)>): (r: seq<(Key, string)>)
    ensures |r| == |entries|
    ensures forall i :: 0 <= i < |r| ==> r[i] == (IdKey(entries[i].0), entries[i].1)
  {
    seq(|entries|, i requires 0 <= i < |entries| => (IdKey(entries[i].0), entries[i].1))
  }

  /** The saving loop with every key through `intval` as well,
      `$order[intval($author_id)] = intval($priority)`. */
  function SavedIdOrder(posted: PostedOrder): Order
  {
    if posted.Entries? then AssignAll(IdEntries(posted.entries)) else []
  }

  lemma {:induction false} AssignIntKeys(order: Order, k: Key, v: int)
    requires IntKeys(order) && k.IntKey?
    ensures IntKeys(Assign(order, k, v))
  {
    if order != [] && order[0].0 != k {
      assert IntKeys(order[1..]) by {
        forall i | 0 <= i < |order[1..]| ensures order[1..][i].0.IntKey? {
          assert order[1..][i] == order[i + 1];
        }
      }
      AssignIntKeys(order[1..], k, v);
    }
  }

  lemma {:induction false} AssignAllIntKeys(entries: seq<(Key, string)>)
    requires forall i :: 0 <= i < |entries| ==> entries[i].0.IntKey?
    ensures IntKeys(AssignAll(entries))
  {
    if entries != [] {
      var front := entries[..|entries| - 1];
      assert forall i :: 0 <= i < |front| ==> front[i] == entries[i];
      AssignAllIntKeys(front);
      AssignIntKeys(AssignAll(front), entries[|entries| - 1].0, IntVal(entries[|entries| - 1].1));
    }
  }

  /** With keys through `intval`, every saved order has integer keys, so
      the clause the filter writes is read back as exactly the saved
      (author, priority) pairs and ranks every author by the priority the
      admin page shows, whatever was posted. */
  lemma SavedIdOrderRanksAuthors(posted: PostedOrder, orderby: string, q: Query, table: string)
    requires Applies(q) && SavedIdOrder(posted) != []
    ensures var order := SavedIdOrder(posted);
            var fallback := if Falsy(orderby) then table + ".post_date DESC" else orderby;
            && IntKeys(order)
            && ParseCase(table, OrderBy(order, orderby, q, table)) == Some((IntEntries(order), " ASC, " + fallback))
            && forall a :: CaseValue(IntEntries(order), a) == Priority(order, a)
  {
    AssignAllIntKeys(IdEntries(posted.entries));
    OrderByRanksAuthors(SavedIdOrder(posted), orderby, q, table);
  }

  // ---------------------------------------------------------------------
  // The plugin's state and entry points.

  class Sorter {
    /** The option `author_sort_order`; an empty array until saved. */
    var order: Order

    constructor ()
      ensures order == []
    {
      order := [];
    }

    /** The saving branch of `admin_page`: the option becomes the posted
        priorities, each through `intval`. */
    method SaveOrder(posted: PostedOrder)
      modifies this
      ensures order == SavedOrder(posted)
    {
      var saved: Order := [];
      if posted.Entries? {
        var es := posted.entries;
        var i := 0;
        while i < |es|
          invariant 0 <= i <= |es|
          invariant saved == AssignAll(es[..i])
        {
          assert es[..i + 1][..i] == es[..i];
          saved := Assign(saved, es[i].0, IntVal(es[i].1));
          i := i + 1;
        }
        assert es[..i] == es;
      }
      order := saved;
    }

    /** `admin_page`: saves the form when submitted, then lists the fetched
        authors by their priority. */
    method AdminPage(submitted: bool, posted: PostedOrder, authors: seq<int>) returns (listing: seq<int>)
      modifies this
      ensures order == if submitted then SavedOrder(posted) else old(order)
      ensures listing == SortByPriority(order, authors)
    {
      if submitted {
        SaveOrder(posted);
      }
      listing := SortByPriority(order, authors);
    }

    /** The loop of `modify_posts_order` that writes the CASE clause. */
    method BuildCase(table: string) returns (c: string)
      ensures c == CaseClause(table, order)
    {
      var es := order;
      c := CaseStart(table);
      var i := 0;
      while i < |es|
        invariant 0 <= i <= |es|
        invariant c == CaseStart(table) + WhenClauses(es[..i])
      {
        WhenClausesPrefix(es, i);
        AppendAssoc(CaseStart(table), WhenClauses(es[..i]), c, WhenClause(es[i]));
        c := c + WhenClause(es[i]);
        i := i + 1;
      }
      assert es[..i] == es;
      c := c + CaseEnd;
    }

    /** `modify_posts_order`, the `posts_orderby` filter. */
    method ModifyPostsOrder(orderby: string, q: Query, table: string) returns (r: string)
      ensures r == OrderBy(order, orderby, q, table)
    {
      if q.isAdmin || !q.isMainQuery || (!q.isArchive && !q.isHome) {
        return orderby;
      }
      if order == [] {
        return orderby;
      }
      var c := BuildCase(table);
      r := c + " ASC, " + (if orderby != "" && orderby != "0" then orderby else table + ".post_date DESC");
    }
  }
}
