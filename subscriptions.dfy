/** The WooCommerce Simple Subscription plugin: products carry three
    subscription fields in their meta, content is restricted to logged-in
    users with an active subscription, the account menu loses two tabs, and
    a user can cancel one of their subscriptions, which are kept as a list
    of order IDs in the user's meta. */
module Subscriptions {

  import opened Wrappers
  import opened Php

  const EnableKey: string := "_wcs_enable_subscription"
  const PriceKey: string := "_wcs_subscription_price"
  const IntervalKey: string := "_wcs_billing_interval"

  // ---------------------------------------------------------------------
  // Saving the product fields.

  /** The product's meta after the product form is saved: the enable flag
      is always written, `yes` when the checkbox was submitted and `no`
      otherwise; price and billing interval are written only when
      submitted (as sanitised text). */
  function SavedFields(meta: map<string, string>, enabled: bool, price: Option<string>, interval: Option<string>): map<string, string>
  {
    var m := meta[EnableKey := if enabled then "yes" else "no"];
    var m' := if price.Some? then m[PriceKey := price.value] else m;
    if interval.Some? then m'[IntervalKey := interval.value] else m'
  }

  /** The enable flag is `yes` exactly when the checkbox was submitted, and
      `no` otherwise. */
  lemma SavedFieldsEnable(meta: map<string, string>, enabled: bool, price: Option<string>, interval: Option<string>)
    ensures var m := SavedFields(meta, enabled, price, interval);
            && EnableKey in m
            && (m[EnableKey] == "yes" <==> enabled)
            && (m[EnableKey] == "no" <==> !enabled)
  {
  }

  /** Price and interval take the submitted value, or keep what was stored
      (or stay absent) when nothing was submitted; other meta is kept. */
  lemma SavedFieldsRest(meta: map<string, string>, enabled: bool, price: Option<string>, interval: Option<string>)
    ensures var m := SavedFields(meta, enabled, price, interval);
            && (price.Some? ==> PriceKey in m && m[PriceKey] == price.value)
            && (price.None? ==> (PriceKey in m <==> PriceKey in meta) && (PriceKey in meta ==> m[PriceKey] == meta[PriceKey]))
            && (interval.Some? ==> IntervalKey in m && m[IntervalKey] == interval.value)
            && (interval.None? ==> (IntervalKey in m <==> IntervalKey in meta) && (IntervalKey in meta ==> m[IntervalKey] == meta[IntervalKey]))
            && m.Keys == meta.Keys + {EnableKey} + (if price.Some? then {PriceKey} else {}) + (if interval.Some? then {IntervalKey} else {})
            && forall k :: k in meta && k != EnableKey && k != PriceKey && k != IntervalKey ==> m[k] == meta[k]
  {
  }

  // ---------------------------------------------------------------------
  // Restricting content.

  /** What `get_user_meta(…, 'wcs_active_subscriptions', true)` returns: the
      empty string when the user has no such meta, else the stored list of
      order IDs. */
  datatype SubsMeta = NoMeta | Subs(ids: seq<int>)

  /** PHP's `empty` on that value. */
  predicate Empty(m: SubsMeta)
  {
    m.NoMeta? || m.ids == []
  }

  /** The outcome of `wcs_restrict_content` for a page request. */
  datatype Access = RedirectToLogin | Allow | RedirectToSubscriptionRequired

  /** The page being requested, as the access rule sees it. */
  datatype Page = Page(isSubscriptionRequired: bool, isFrontPage: bool)

  /** `wcs_restrict_content`: `user` is the logged-in user's subscription
      meta, or None for a visitor. */
  function RestrictContent(user: Option<SubsMeta>, page: Page): Access
  {
    if user.None? then RedirectToLogin
    else if page.isSubscriptionRequired || page.isFrontPage then Allow
    else if Empty(user.value) then RedirectToSubscriptionRequired
    else Allow
  }

  /** A visitor is always sent to log in, whatever the page; a logged-in
      user always sees the `subscription-required` page and the front page;
      elsewhere a logged-in user is sent to `/subscription-required` exactly
      when they have no subscription. */
  lemma RestrictContentDecision(user: Option<SubsMeta>, page: Page)
    ensures RestrictContent(user, page) == RedirectToLogin <==> user.None?
    ensures user.Some? && (page.isSubscriptionRequired || page.isFrontPage) ==> RestrictContent(user, page) == Allow
    ensures RestrictContent(user, page) == RedirectToSubscriptionRequired <==>
              user.Some? && !page.isSubscriptionRequired && !page.isFrontPage && Empty(user.value)
    ensures RestrictContent(user, page) == Allow <==>
              user.Some? && (page.isSubscriptionRequired || page.isFrontPage || !Empty(user.value))
  {
  }

  // ---------------------------------------------------------------------
  // The account menu.

  /** The menu entries the plugin takes out. */
  predicate RemovedTab(key: string)
  {
    key == "edit-address" || key == "downloads"
  }

  /** `wcs_remove_account_tabs`: the menu items, keyed by endpoint, without
      `edit-address` and `downloads`. */
  function RemoveAccountTabs(items: seq<(string, string)>): (r: seq<(string, string)>)
    ensures forall e :: e in r <==> e in items && !RemovedTab(e.0)
  {
    if items == [] then []
    else
      var rest := RemoveAccountTabs(items[1..]);
      assert forall e :: e in items <==> e == items[0] || e in items[1..];
      if RemovedTab(items[0].0) then rest else [items[0]] + rest
  }

  /** The filter works item by item, so the items it keeps stay in their
      order. */
  lemma {:induction false} RemoveAccountTabsAppend(a: seq<(string, string)>, b: seq<(string, string)>)
    ensures RemoveAccountTabs(a + b) == RemoveAccountTabs(a) + RemoveAccountTabs(b)
  {
    if a != [] {
      assert (a + b)[1..] == a[1..] + b;
      RemoveAccountTabsAppend(a[1..], b);
    } else {
      assert a + b == b;
    }
  }

  /** A menu without the two tabs is returned as it is. */
  lemma {:induction false} RemoveAccountTabsKeeps(items: seq<(string, string)>)
    requires forall i :: 0 <= i < |items| ==> !RemovedTab(items[i].0)
    ensures RemoveAccountTabs(items) == items
  {
    if items != [] {
      assert forall i :: 0 <= i < |items[1..]| ==> items[1..][i] == items[i + 1];
      RemoveAccountTabsKeeps(items[1..]);
    }
  }

  /** Filtering twice is filtering once. */
  lemma RemoveAccountTabsIdempotent(items: seq<(string, string)>)
    ensures RemoveAccountTabs(RemoveAccountTabs(items)) == RemoveAccountTabs(items)
  {
    var r := RemoveAccountTabs(items);
    forall i | 0 <= i < |r| ensures !RemovedTab(r[i].0) {
      assert r[i] in r;
    }
    RemoveAccountTabsKeeps(r);
  }

  // ---------------------------------------------------------------------
  // Cancelling a subscription.

  /** `array_diff($subscriptions, [$id])`: the list without any occurrence
      of `id`, everything else in its order. */
  function Without(ids: seq<int>, id: int): (r: seq<int>)
    ensures multiset(r) == multiset(ids)[id := 0]
  {
    if ids == [] then []
    else
      assert ids == [ids[0]] + ids[1..];
      var rest := Without(ids[1..], id);
      if ids[0] == id then rest else [ids[0]] + rest
  }

  /** No occurrence of the cancelled ID is left, every other ID keeps its
      count, and a list without the ID is unchanged. */
  lemma WithoutProperties(ids: seq<int>, id: int)
    ensures id !in Without(ids, id)
    ensures forall x :: x != id ==> multiset(Without(ids, id))[x] == multiset(ids)[x]
    ensures id !in ids ==> Without(ids, id) == ids
  {
    var r := Without(ids, id);
    assert multiset(r)[id] == 0;
    if id !in ids {
      WithoutAbsent(ids, id);
    }
  }

  lemma {:induction false} WithoutAbsent(ids: seq<int>, id: int)
    requires id !in ids
    ensures Without(ids, id) == ids
  {
    if ids != [] {
      assert id !in ids[1..];
      WithoutAbsent(ids[1..], id);
    }
  }

  /** `in_array` as the cancellation handler calls it, under PHP 8: a
      TypeError when the user meta is not an array. */
  datatype InArray = Found | NotFound | TypeError

  function InArrayAsWritten(id: int, m: SubsMeta): InArray
  {
    if m.NoMeta? then TypeError else if id in m.ids then Found else NotFound
  }

  /** A user without the meta who opens `?cancel_subscription=…` makes the
      handler fail with a TypeError instead of doing nothing. */
  lemma CancellationWithoutMetaFails(id: int, m: SubsMeta)
    requires m == NoMeta
    ensures InArrayAsWritten(id, m) == TypeError
  {
  }

  /** The check the handler evidently means: the ID is in the user's list,
      an absent list holding nothing. */
  function Subscribed(m: SubsMeta, id: int): bool
  {
    m.Subs? && id in m.ids
  }

  /** Where the meta is a list, the check agrees with `in_array`; without
      a list, nothing is subscribed. */
  lemma SubscribedMatchesInArray(m: SubsMeta, id: int)
    ensures m.Subs? ==> (Subscribed(m, id) <==> InArrayAsWritten(id, m) == Found)
    ensures m.NoMeta? ==> !Subscribed(m, id)
  {
  }

  /** What the cancellation handler does with a request. */
  datatype CancelOutcome = Ignored | CancelledAndRedirected(orderId: int)

  // ---------------------------------------------------------------------
  // The stored state.

  class Store {
    /** Product meta by product ID. */
    var productMeta: map<int, map<string, string>>
    /** `wcs_active_subscriptions` by user ID; a user without the meta is
        absent. */
    var subscriptions: map<int, seq<int>>
    /** The orders whose status was set to `cancelled`, in order. */
    var cancelled: seq<int>

    constructor ()
      ensures productMeta == map[] && subscriptions == map[] && cancelled == []
    {
      productMeta := map[];
      subscriptions := map[];
      cancelled := [];
    }

    function MetaOf(user: int): SubsMeta
      reads this
    {
      if user in subscriptions then Subs(subscriptions[user]) else NoMeta
    }

    /** `wcs_save_subscription_fields` for product `postId`. */
    method SaveSubscriptionFields(postId: int, enabled: bool, price: Option<string>, interval: Option<string>)
      modifies this
      ensures var old' := if postId in old(productMeta) then old(productMeta)[postId] else map[];
              productMeta == old(productMeta)[postId := SavedFields(old', enabled, price, interval)]
      ensures subscriptions == old(subscriptions) && cancelled == old(cancelled)
    {
      var meta := if postId in productMeta then productMeta[postId] else map[];
      meta := meta[EnableKey := if enabled then "yes" else "no"];
      if price.Some? {
        meta := meta[PriceKey := price.value];
      }
      if interval.Some? {
        meta := meta[IntervalKey := interval.value];
      }
      productMeta := productMeta[postId := meta];
    }

    /** `wcs_restrict_content` for the current request; `user` is the
        logged-in user's ID, or None for a visitor. */
    method CheckAccess(user: Option<int>, page: Page) returns (a: Access)
      ensures a == RestrictContent(if user.Some? then Some(MetaOf(user.value)) else None, page)
    {
      if user.None? {
        return RedirectToLogin;
      }
      if page.isSubscriptionRequired || page.isFrontPage {
        return Allow;
      }
      var m := MetaOf(user.value);
      if Empty(m) {
        return RedirectToSubscriptionRequired;
      }
      return Allow;
    }

    /** `wcs_handle_subscription_cancellation`: `cancelParam` is
        `$_GET['cancel_subscription']`, `user` the logged-in user. When the
        ID (through `intval`) is in the user's list, the order is cancelled
        and the ID leaves the list; otherwise nothing changes. */
    method HandleCancellation(cancelParam: Option<string>, user: Option<int>) returns (outcome: CancelOutcome)
      modifies this
      ensures productMeta == old(productMeta)
      ensures outcome.CancelledAndRedirected? <==>
                cancelParam.Some? && user.Some? && Subscribed(old(MetaOf(user.value)), IntVal(cancelParam.value))
      ensures outcome.Ignored? ==> subscriptions == old(subscriptions) && cancelled == old(cancelled)
      ensures outcome.CancelledAndRedirected? ==>
                && outcome.orderId == IntVal(cancelParam.value)
                && cancelled == old(cancelled) + [outcome.orderId]
                && subscriptions == old(subscriptions)[user.value := Without(old(subscriptions)[user.value], outcome.orderId)]
    {
      outcome := Ignored;
      if cancelParam.Some? && user.Some? {
        var orderId := IntVal(cancelParam.value);
        var m := MetaOf(user.value);
        if Subscribed(m, orderId) {
          cancelled := cancelled + [orderId];
          subscriptions := subscriptions[user.value := Without(m.ids, orderId)];
          outcome := CancelledAndRedirected(orderId);
        }
      }
    }
  }
}
