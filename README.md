# Three WordPress plugins, modelled in Dafny

This project models the logic of three small WordPress plugins and proves
properties of it:

- **Pay Per View Manager** pays authors for their readers.
  - Each post carries two counters in its post meta: views (`_ppv_views`) and seconds of reading time (`_ppv_reading_time`). A page view and a reading-time report from the browser update them.
  - The dashboard previews the current period's payouts.
  - "Process Payouts" writes one row per active post to the `ppv_payout_logs` table and then deletes that post's counters.
  - The logs tab lists the rows, newest first. The statistics tab sums them per author.
  - A payout is either views × the pay-per-view rate, or a share of a total budget weighted by seconds of reading per word.
- **Simple Author Sorter** lets an administrator give every author a priority number, saved in the option `author_sort_order`.
  - The admin page lists the authors by priority.
  - The main query of archive and home pages is ordered by a `CASE` clause that ranks posts by their author's priority.
- **WooCommerce Simple Subscription**:
  - stores three subscription fields on a product;
  - sends visitors to log in, and logged-in users without a subscription to `/subscription-required`;
  - removes the `edit-address` and `downloads` account tabs;
  - lets a user cancel one of the order IDs kept in their `wcs_active_subscriptions` user meta.

## Files and modules

| File | Module | Contents |
|---|---|---|
| `wrappers.dfy` | `Wrappers` | `Option` |
| `php.dfy` | `Php` | PHP's `intval` on strings (leading whitespace, sign, digit run, 64-bit saturation); integer interpolation into strings; reading an interpolated integer back |
| `ppv_model.dfy` | `PpvModel` | users, posts and settings; per-author aggregation; the two payout formulas; `calculate_author_payout` as a function |
| `ppv_reading.dfy` | `ReadingTime` | the reading-time counter: one report as read-`intval`-add-write, and a sequence of reports as a fold |
| `ppv_cycle.dfy` | `PayoutCycle` | the payout cycle as a fold over authors and posts, and a description of its effect from the counters before the cycle |
| `ppv_preview.dfy` | `PayoutPreview` | the "Current Period Payouts" table |
| `ppv_reports.dfy` | `PayoutReports` | the logs and statistics tabs as functions of the log table |
| `ppv_store.dfy` | `PpvStore` | the class `Store` (counters, log table, settings) and the loops of the plugin as methods proved equal to the functions above |
| `author_sorter.dfy` | `AuthorSorter` | the saved order, priorities, the admin listing, the ORDER BY builder and a reader for the `CASE` clause it writes; the class `Sorter` holding the option |
| `subscriptions.dfy` | `Subscriptions` | product fields, the access rule, the tab filter, cancellation; the class `Store` holding product meta, subscription lists and cancelled orders |

Host storage is modelled as follows:

- post meta as `map<int, int>` by post ID (absent when the post has no meta);
- the log table as a `seq` of rows in insertion order;
- options as class fields;
- money as `real`, counters as `int`.

The host's users and posts (what `get_users` and `get_posts` return) are a `Site` value passed to the operations. The clock that stamps a log row is the `now` parameter of a cycle, one value for all the rows of that cycle.

Where the plugin's documented design and its code differ, the model follows the code:

- The cycle writes one log row per active **post**, not per author (`pay-per-view-manager/pay-per-view-manager.php:101-118`).
- Each row's payout is `calculate_author_payout` of the author at that moment. Its global sums are recomputed for every row, after the counters of the posts already paid are deleted. They include the excluded administrators 1 and 2 (`:112`, `:289-299`). `PayoutCycle.RowsRecomputePayout` and `PpvModel.AdminsCountInGlobalSums` show both effects on concrete figures.
- The preview's global totals run only over the authors listed so far, so the same figures pay differently depending on the listing order (`:179-187`). `PayoutPreview.RunningTotalsExample` shows this.
- The budget formula does not share the budget out: one author can be paid more than the whole budget (`PpvModel.BudgetNotShared`).

## Model

| member | source | states |
|---|---|---|
| PpvStore.Store.SaveReadingTime | pay-per-view-manager/pay-per-view-manager.php:45-58 | With both request fields present, the reading time becomes one report of the `intval` of the seconds for the post `intval` of the ID: the `intval` of the stored text plus the seconds (absent meta reads as 0). With either field missing, nothing changes. Views, logs and settings never change |
| ReadingTime.IntValOfMetaText | pay-per-view-manager/pay-per-view-manager.php:50-51 | `intval` of a stored counter's text is the counter, and 0 for a post without the meta |
| ReadingTime.ReportStep | pay-per-view-manager/pay-per-view-manager.php:50-55 | With the stored counter in the 64-bit range, one report sets the post's counter to its value plus the seconds and leaves every other post's counter alone |
| ReadingTime.ApplyReportsAdd | pay-per-view-manager/pay-per-view-manager.php:50-55 | Any update rule that adds the seconds to an in-range counter, applied report by report, adds their sum |
| ReadingTime.ReportsAdd | pay-per-view-manager/pay-per-view-manager.php:50-55 | While the running value stays in range, a sequence of reports leaves the post's reading time at its prior value plus the sum of the seconds, other posts untouched |
| ReadingTime.SumPermutation | pay-per-view-manager/pay-per-view-manager.php:50-55 | The sum of the reported seconds does not depend on their order |
| ReadingTime.NonNegativeInRange | pay-per-view-manager/pay-per-view-manager.php:50-55 | Non-negative reports whose total fits in 64 bits keep every running value in range |
| ReadingTime.ReportsInAnyOrder | pay-per-view-manager/pay-per-view-manager.php:45-58 | Non-negative reports whose total fits give the same counters in whatever order they arrive |
| PpvStore.Store.CountView | pay-per-view-manager/pay-per-view-manager.php:65-69 | On a single-post view of a non-zero post ID, an absent or zero counter becomes 1 and any other counter goes up by 1. Otherwise, and for every other field, nothing changes |
| PpvStore.Store.SaveSettings | pay-per-view-manager/pay-per-view-manager.php:84-88 | The three options take the submitted values; counters and logs are untouched |
| PpvStore.Store.constructor | pay-per-view-manager/pay-per-view-manager.php:125-127 | A fresh site has no counters, no rows, and the options' defaults (budget 0, rate 0, method `budget`) |
| PpvStore.AggregateAuthor | pay-per-view-manager/pay-per-view-manager.php:274-283 | The loop over an author's posts returns the sums of views, reading time and words over exactly that author's posts |
| PpvStore.SumPosts | pay-per-view-manager/pay-per-view-manager.php:275-283 | The accumulating loop equals the sums over the given posts, absent counters counting 0 |
| PpvStore.GlobalTotals | pay-per-view-manager/pay-per-view-manager.php:286-299 | The nested loop over every author and editor (administrators included) equals the global sums |
| PpvStore.CalculateAuthorPayout | pay-per-view-manager/pay-per-view-manager.php:265-309 | The result is the author's payout from the current counters, with global sums gathered only for the budget method |
| PpvStore.Store.ProcessPayouts | pay-per-view-manager/pay-per-view-manager.php:90-120 | The new counters and log equal one run of the cycle over the old ones, and settings are kept. With distinct IDs: exactly the paid posts lose both counters; old rows are kept as a prefix; the appended rows are the planned ones for the paid posts, in order, with their pre-reset counters |
| PpvStore.Store.PayAuthor | pay-per-view-manager/pay-per-view-manager.php:100-119 | The inner loop over an author's posts equals the per-post fold: each active post gets a row with the author's payout at that moment, then loses its counters |
| PpvStore.Store.PreviewPayouts | pay-per-view-manager/pay-per-view-manager.php:156-202 | The preview of the stored counters and settings is the table of the fetched authors and editors |
| PpvStore.PreviewTable | pay-per-view-manager/pay-per-view-manager.php:161-201 | The loop with running totals over the listed users returns their preview table |
| PpvStore.PreviewUser | pay-per-view-manager/pay-per-view-manager.php:162-193 | One iteration extends the table and the running totals from those of the users before to those of the users up to this one |
| PpvModel.Counter | pay-per-view-manager/pay-per-view-manager.php:102-103 | A counter the post does not have reads as 0, an existing one as its value |
| PpvModel.EligibleUsersMembers | pay-per-view-manager/pay-per-view-manager.php:91 | The users fetched are exactly those holding the author or the editor role |
| PpvModel.PostsOfMembers | pay-per-view-manager/pay-per-view-manager.php:100 | The posts fetched for an author are exactly the posts whose author that is |
| PpvModel.SumTotalsAppend | pay-per-view-manager/pay-per-view-manager.php:174-176 | Sums over two runs of posts add up, component by component |
| PpvModel.SumTotalsWithoutCounters | pay-per-view-manager/pay-per-view-manager.php:170-175 | Posts without counters add no views and no reading time |
| PpvModel.SumTotalsNonNegative | pay-per-view-manager/pay-per-view-manager.php:174-175 | Non-negative counters give non-negative sums |
| PpvModel.AvgSecondsPerWord | pay-per-view-manager/pay-per-view-manager.php:183 | 0 without words; otherwise the value times the word count is the reading time |
| PpvModel.Payout | pay-per-view-manager/pay-per-view-manager.php:185-190 | The budget method pays 0 whenever the global views or the global reading time is not positive |
| PpvModel.PayPerViewPayout | pay-per-view-manager/pay-per-view-manager.php:306-307 | Any method other than exactly `budget` pays views × rate, whatever the global sums |
| PpvModel.BudgetPayout | pay-per-view-manager/pay-per-view-manager.php:301-303 | With positive global sums the budget formula equals views × budget × seconds-per-word / global reading time (the global views cancel) |
| PpvModel.NoViewsNoPayout | pay-per-view-manager/pay-per-view-manager.php:285-308 | An author without views is paid 0 under either method |
| PpvModel.PayoutNonNegative | pay-per-view-manager/pay-per-view-manager.php:285-308 | Non-negative counters, budget and rate never give a negative payout |
| PpvModel.PayPerViewLinear | pay-per-view-manager/pay-per-view-manager.php:307 | The pay-per-view payout of summed totals is the sum of the payouts |
| PpvModel.BudgetNotShared | pay-per-view-manager/pay-per-view-manager.php:301-303 | A sole active author with 10 views and reading time over 1 word is paid 1000 out of a budget of 100 |
| PpvModel.AdminsCountInGlobalSums | pay-per-view-manager/pay-per-view-manager.php:289-299 | An administrator with the editor role and as much activity as author 3 halves author 3's budget payout (50 instead of 100) |
| PpvModel.AggregateExample | pay-per-view-manager/pay-per-view-manager.php:274-283 | Posts with (10 views, 300 s, 100 words) and (5, 100 s, 50 words) give 15 views, 400 s, 150 words and 8/3 s per word |
| PpvModel.PayPerViewExample | pay-per-view-manager/pay-per-view-manager.php:307 | 15 views at 2.5 pay 37.5 |
| PpvModel.BudgetExample | pay-per-view-manager/pay-per-view-manager.php:303 | 15 of 100 views, 8/3 s per word, 2000 s in total and a budget of 1000 pay 20 |
| PayoutCycle.ActivePosts | pay-per-view-manager/pay-per-view-manager.php:105 | The posts kept are exactly those with views or reading time above 0 |
| PayoutCycle.PayPostsCounters | pay-per-view-manager/pay-per-view-manager.php:101-119 | Paying one author's posts deletes the counters of exactly that author's active posts |
| PayoutCycle.PayPostsLogs | pay-per-view-manager/pay-per-view-manager.php:101-119 | Paying one author's posts appends one row per active post, in order, with the pre-reset counters |
| PayoutCycle.PayAuthorsCounters | pay-per-view-manager/pay-per-view-manager.php:94-119 | Over all authors, the counters deleted are exactly those of the paid posts |
| PayoutCycle.PayAuthorsKeepsLogs | pay-per-view-manager/pay-per-view-manager.php:106-114 | Existing rows are never changed: the old log is a prefix of the new one |
| PayoutCycle.PayAuthorsLogs | pay-per-view-manager/pay-per-view-manager.php:94-119 | The entries of the new log are the old entries followed by one per paid post, in order |
| PayoutCycle.PaidPostsOfSite | pay-per-view-manager/pay-per-view-manager.php:91-105 | The paid posts have distinct IDs and are exactly the active posts of non-excluded authors and editors |
| PayoutCycle.RunCycleEffect | pay-per-view-manager/pay-per-view-manager.php:90-119 | A cycle deletes the counters of exactly the paid posts, keeps the old rows and appends exactly the planned entries |
| PayoutCycle.RunCyclePayouts | pay-per-view-manager/pay-per-view-manager.php:101-117 | The payouts of the appended rows are the planned ones: each paid post's author's payout from the counters with the posts paid before it deleted |
| PayoutCycle.PayoutsAt | pay-per-view-manager/pay-per-view-manager.php:112 | Rows with the planned payouts have one per post, the k-th paying the k-th post's author against the counters without the first k posts |
| PayoutCycle.AppendedRows | pay-per-view-manager/pay-per-view-manager.php:106-114 | Appended rows with the planned entries and payouts hold, row by row, the post's author, counters, date and payout |
| PayoutCycle.CycleRows | pay-per-view-manager/pay-per-view-manager.php:92-114 | One row per paid post. Row k has the post's author (never 1 or 2), its counters before the reset (at least one above 0), the cycle's date, and as payout `calculate_author_payout` of that author once the counters of the k posts paid before it are deleted |
| PayoutCycle.CycleLeavesUnpaid | pay-per-view-manager/pay-per-view-manager.php:95-105 | The counters of a post by an excluded or ineligible author, or without activity, are unchanged |
| PayoutCycle.CycleResetsPaid | pay-per-view-manager/pay-per-view-manager.php:105-117 | Every active post of a payable author loses both counters |
| PayoutCycle.RowsRecomputePayout | pay-per-view-manager/pay-per-view-manager.php:112-117 | Two posts of one author with 10 views each, at rate 1, get rows paying 20 and then 10 |
| PayoutPreview.PreviewRowsSnoc | pay-per-view-manager/pay-per-view-manager.php:161-193 | Each listed user adds their sums to the running totals, and adds a row (with the payout against those totals) when active; excluded users change nothing |
| PayoutPreview.PreviewRowsSound | pay-per-view-manager/pay-per-view-manager.php:161-201 | Every row belongs to a listed, non-excluded user with activity and shows that user's sums |
| PayoutPreview.PreviewRowsComplete | pay-per-view-manager/pay-per-view-manager.php:182 | Every listed, non-excluded user with views or reading time has a row |
| PayoutPreview.PreviewMatchesPayPerView | pay-per-view-manager/pay-per-view-manager.php:191-193 | Under pay-per-view every row's payout is what `calculate_author_payout` pays that author |
| PayoutPreview.RunningTotalsExample | pay-per-view-manager/pay-per-view-manager.php:179-190 | Two authors with equal sums and a budget of 100 are shown 100 and 50 |
| PayoutReports.Joined | pay-per-view-manager/pay-per-view-manager.php:214 | The join keeps exactly the rows whose author is a user, each as often as it is stored, and drops every other row |
| PayoutReports.SortDescSorted | pay-per-view-manager/pay-per-view-manager.php:215 | The sort orders by the key, highest first, and is a permutation |
| PayoutReports.LogsTabContents | pay-per-view-manager/pay-per-view-manager.php:211-216 | The logs tab is a permutation of the joined rows, newest first: every row of an existing author as often as it is stored, and no other row |
| PayoutReports.StatOf | pay-per-view-manager/pay-per-view-manager.php:237-239 | A group is labelled with its author |
| PayoutReports.AuthorsOf | pay-per-view-manager/pay-per-view-manager.php:242 | The groups' authors are exactly the rows' authors, each once |
| PayoutReports.Grouped | pay-per-view-manager/pay-per-view-manager.php:242 | One group per distinct author, holding that author's sums |
| PayoutReports.StatsTabOrder | pay-per-view-manager/pay-per-view-manager.php:242-243 | The statistics tab is ordered by total payout, highest first, with each author once |
| PayoutReports.StatsTabIsGroups | pay-per-view-manager/pay-per-view-manager.php:234-244 | Its lines are exactly the per-author groups of the joined rows |
| PayoutReports.StatsTabSums | pay-per-view-manager/pay-per-view-manager.php:237-239 | Each line holds the sums of views, reading time and payout of its author's joined rows |
| PayoutReports.StatsTabAuthors | pay-per-view-manager/pay-per-view-manager.php:240-242 | There is a line for an author exactly when the author exists and has rows |
| Php.IntVal | pay-per-view-manager/pay-per-view-manager.php:47-48 | `intval` of a string is always within the 64-bit range |
| Php.IntValOfIntToString | pay-per-view-manager/pay-per-view-manager.php:51 | `intval` reads every 64-bit integer back from its decimal text |
| Php.IntValSkipsSpaceAndTrailer | pay-per-view-manager/pay-per-view-manager.php:47-48 | `intval(" 12abc")` is 12: leading whitespace is skipped and the text after the digits ignored |
| Php.IntValWithoutDigits | pay-per-view-manager/pay-per-view-manager.php:47-48 | A lone sign and text without digits read as 0 |
| Php.IntValSigned | pay-per-view-manager/pay-per-view-manager.php:47-48 | `-7` reads as -7 and `+7` as 7 |
| Php.IntValSaturates | pay-per-view-manager/pay-per-view-manager.php:47-48 | A digit run worth more than 2^63-1 reads as 2^63-1, and after `-` as -2^63 |
| Php.NinesAboveRange | pay-per-view-manager/pay-per-view-manager.php:47-48 | Twenty nines are a digit run beyond the 64-bit range |
| Php.ParseIntOfIntToString | simple-author-sorter.php:124 | An interpolated integer, followed by text not starting with a digit, is read back as itself and that text |
| AuthorSorter.Sorter.constructor | simple-author-sorter.php:52 | The option reads as an empty order until it is saved |
| AuthorSorter.Sorter.SaveOrder | simple-author-sorter.php:40-47 | The saving loop stores the order of the posted entries, each value through `intval` |
| AuthorSorter.AssignNew | simple-author-sorter.php:44 | Assigning a key the array does not hold appends it |
| AuthorSorter.SavedOrderOfEntries | simple-author-sorter.php:41-46 | With distinct posted keys, the saved order is exactly the posted keys, in order, each with the `intval` of its value |
| AuthorSorter.SavedOrderWithoutEntries | simple-author-sorter.php:41-42 | A missing or non-array `author_order` saves an empty order |
| AuthorSorter.Lookup | simple-author-sorter.php:59 | A priority is found exactly when the key is saved |
| AuthorSorter.PrioritySaved | simple-author-sorter.php:59-60 | An author with a saved priority gets that priority |
| AuthorSorter.PriorityUnsaved | simple-author-sorter.php:84 | An author without a saved priority gets 999999 |
| AuthorSorter.InsertByPriority | simple-author-sorter.php:58-62 | Inserting an author adds exactly that author to the listing |
| AuthorSorter.SortByPriority | simple-author-sorter.php:58-62 | The listing is a permutation of the fetched authors |
| AuthorSorter.SortByPrioritySorted | simple-author-sorter.php:58-62 | The listing is sorted by priority, lowest first, and is a permutation of the fetched authors |
| AuthorSorter.InsertByPriorityStable | simple-author-sorter.php:58-62 | Inserting an author keeps the order of the authors of each priority, the new one going first among its equals |
| AuthorSorter.SortByPriorityStable | simple-author-sorter.php:58-62 | Authors of equal priority are listed in the order they were fetched (PHP 8's stable `usort`) |
| AuthorSorter.Sorter.AdminPage | simple-author-sorter.php:34-62 | The option is saved when the form is submitted and kept otherwise; the listing is the fetched authors sorted by the resulting priorities |
| AuthorSorter.CompareAsWrittenMisorders | simple-author-sorter.php:61 | Priorities 2^63-1 and -1 compare as if the first were smaller |
| AuthorSorter.CompareAsWrittenInRange | simple-author-sorter.php:61 | When the difference fits in 64 bits, the comparator's sign is the comparison's |
| AuthorSorter.OrderByUnchanged | simple-author-sorter.php:111-120 | The filter returns `orderby` unchanged exactly in admin, for a non-main query, off archive and home pages, or with no saved order |
| AuthorSorter.WhenClausesSnoc | simple-author-sorter.php:123-125 | Each saved entry appends its own `WHEN … THEN … ` branch |
| AuthorSorter.Sorter.BuildCase | simple-author-sorter.php:122-126 | The loop builds `CASE <table>.post_author`, one branch per saved entry in order, then `ELSE 999999 END` |
| AuthorSorter.Sorter.ModifyPostsOrder | simple-author-sorter.php:110-129 | The filter's result is the ORDER BY function of the saved order, `orderby` and the query |
| AuthorSorter.ParseWhensOfWhenClauses | simple-author-sorter.php:123-126 | The branches written for integer keys are read back as exactly the saved (author, priority) pairs, in order |
| AuthorSorter.ParseCaseClause | simple-author-sorter.php:122-126 | For an order of integer keys, the whole CASE clause is read back as the saved entries |
| AuthorSorter.CaseValueIsPriority | simple-author-sorter.php:124-126 | For an order of integer keys, the CASE expression ranks every author by the priority the admin page shows, 999999 when unsaved |
| AuthorSorter.OrderByRanksAuthors | simple-author-sorter.php:122-128 | For an order of integer keys, when the filter applies, the result is the CASE clause ranking every author by priority, then `ASC, ` and the query's ordering (or `post_date DESC` when that is empty or `"0"`) |
| AuthorSorter.StringKeyAddsBranches | simple-author-sorter.php:43-44 | A saved string key `3 THEN 0 WHEN 4` with priority 5 writes a clause read back as two branches, (3, 0) and (4, 5), so author 3 is ranked 0 although the admin page gives them 999999 |
| AuthorSorter.AssignAllIntKeys | simple-author-sorter.php:41-46 | Saving entries whose keys are all integers gives an order of integer keys |
| AuthorSorter.SavedIdOrderRanksAuthors | simple-author-sorter.php:41-46 | With every posted key through `intval`, whatever was posted, the saved order has integer keys, its clause is read back as exactly the saved pairs, and every author is ranked by the priority the admin page shows |
| Subscriptions.SavedFieldsEnable | woocommerce-subscriptions.php:57-58 | The enable flag is always written: `yes` exactly when the checkbox was submitted, else `no` |
| Subscriptions.SavedFieldsRest | woocommerce-subscriptions.php:60-66 | Price and interval are overwritten only when submitted, otherwise kept (or left absent); all other meta is unchanged |
| Subscriptions.Store.SaveSubscriptionFields | woocommerce-subscriptions.php:56-67 | The product's meta becomes the saved fields of its old meta; nothing else changes |
| Subscriptions.RestrictContentDecision | woocommerce-subscriptions.php:93-109 | A visitor is always sent to log in. A logged-in user always sees the `subscription-required` page and the front page. Elsewhere a logged-in user is redirected exactly when their subscription meta is empty |
| Subscriptions.Store.CheckAccess | woocommerce-subscriptions.php:93-109 | The handler's decision is the access rule applied to the user's stored subscriptions |
| Subscriptions.RemoveAccountTabs | woocommerce-subscriptions.php:113-117 | The items kept are exactly those other than `edit-address` and `downloads` |
| Subscriptions.RemoveAccountTabsAppend | woocommerce-subscriptions.php:113-117 | The filter works item by item, so kept items stay in order |
| Subscriptions.RemoveAccountTabsKeeps | woocommerce-subscriptions.php:114-115 | A menu without the two tabs is returned unchanged |
| Subscriptions.RemoveAccountTabsIdempotent | woocommerce-subscriptions.php:113-117 | Filtering twice is filtering once |
| Subscriptions.Without | woocommerce-subscriptions.php:143 | `array_diff` with one ID removes every occurrence of it and keeps the count of every other ID |
| Subscriptions.WithoutProperties | woocommerce-subscriptions.php:143 | No occurrence of the ID remains, other IDs keep their counts, and a list without the ID is unchanged |
| Subscriptions.CancellationWithoutMetaFails | woocommerce-subscriptions.php:139-141 | For a user without the meta, `in_array` gets `""` and raises a TypeError |
| Subscriptions.SubscribedMatchesInArray | woocommerce-subscriptions.php:141 | On a stored list, the membership test agrees with `in_array`; without a list nothing is subscribed |
| Subscriptions.Store.HandleCancellation | woocommerce-subscriptions.php:135-148 | The handler cancels exactly when the parameter is set, the user is logged in and the ID is in their list. The order is then marked cancelled and every occurrence of the ID leaves the list. Otherwise nothing changes |

## Left out

- HTML output, escaping, `number_format`, menus, scripts, nonces (`check_admin_referer`) and capability checks: they decide what is shown, not what is stored.
- `pay-per-view-manager/js/reading-time.js` (browser timers and the beacon): the reported seconds are an input string of `SaveReadingTime`.
- Table creation with `dbDelta`, and the SQL engine itself. The logs and statistics tabs are functions of the log sequence, and the cycle's date is a parameter.
- `str_word_count(strip_tags(...))`, a library call: each post's word count is given with the post.
- `floatval` and `sanitize_text_field`: settings and product fields are stored as given. IEEE floats and the `decimal(10,2)` column's rounding are not modelled; money is an exact `real`.
- PpvStore.Store.SaveReadingTime: the sum of two 64-bit integers is unbounded here. PHP would turn an overflowing sum into a float; `ReadingTime.ReportsAdd` therefore asks that the running value stay in range.
- PpvStore.Store.CountView: same for the increment at 2^63-1. Counters are compared as integers, whereas PHP compares the stored strings loosely.
- Php.IntVal: exponent notation (`"1e3"`), hexadecimal and non-string request values (nested arrays) are not modelled. `DigitsValue` is total, but it is only applied to digit runs.
- Concurrency: the read-then-write updates of the counters and the cycle run one at a time.
- `get_users`, `get_posts` and `wc_get_order` are the host's. Users and posts come from a `Site` value whose IDs are distinct. `wc_get_order` returning `false` for an unknown order is not modelled; a cancelled order is recorded in a list.
- Display names: rows are keyed by author ID.
- `wp_redirect` and `exit` are returned decision values.
- PayoutCycle.RunCycle: each inserted row takes its own `CURRENT_TIMESTAMP` from the column default (`pay-per-view-manager/pay-per-view-manager.php:22`, `:106-114`). The model stamps every row of a cycle with one `now`, a simplification for a cycle that runs within one second.
- PayoutReports.LogsTab: with one date per cycle, a cycle's rows tie under `ORDER BY l.payout_date DESC` (`:215`), which gives them no order in SQL; the model keeps their insertion order. With per-row timestamps a cycle's rows would be listed newest first.
- PayoutReports.StatsTab: same for groups with equal total payout.
- AuthorSorter.SortByPriority: the model sorts by the priorities themselves, as the comparator evidently means (see Findings); its stability is proved (`SortByPriorityStable`).
- AuthorSorter.ParseCaseClause: stated for orders whose keys are all integers. A non-numeric posted key is saved and interpolated as it is (see Findings), and then the clause need not read back as the saved entries.
- AuthorSorter.CaseValueIsPriority: stated for orders of integer keys, for the same reason; `StringKeyAddsBranches` shows a string key that breaks it.
- AuthorSorter.OrderByRanksAuthors: stated for orders of integer keys, for the same reason; `SavedIdOrderRanksAuthors` proves it for every posted input once keys go through `intval`.
- AuthorSorter.Sorter: the class saves and interpolates the keys as the plugin does, without `intval`.
- AuthorSorter.CompareAsWritten: the float rounding of an overflowing difference before it is read back as an integer is not modelled; the difference is wrapped modulo 2^64 directly.
- Subscriptions.Without: `array_diff` keeps the original array keys. The model renumbers the list, which is all later reads of the meta use.
- Subscriptions.RemoveAccountTabs: the menu is a sequence of (key, label) pairs. The filter is proved on any sequence; a PHP array's keys are distinct.
- Loose comparison in `in_array` of stored elements that are not integers: the list holds integers.
- `wcs_add_subscription_fields`, `wcs_checkout_button_shortcode` and `wcs_add_cancel_subscription_button`: output only.

## Findings

| source | as written | input that shows it | evidently intended | confidence | as-written member | corrected member |
|---|---|---|---|---|---|---|
| simple-author-sorter.php:58-62 | the `usort` comparator returns `$priority_a - $priority_b` | saved priorities 9223372036854775807 and -1: the difference overflows and wraps to a negative value | order by comparing the priorities | medium, not executed | AuthorSorter.CompareAsWrittenMisorders | AuthorSorter.SortByPrioritySorted |
| simple-author-sorter.php:43-44 | `$order[$author_id] = intval($priority)` keeps the posted key as it is, and `:124` interpolates it into the CASE clause | a posted `author_order[3 THEN 0 WHEN 4]=5`: the clause gets the branches `WHEN 3 THEN 0 WHEN 4 THEN 5`, ranking author 3 at 0 although the admin page shows them unsaved (999999) | pass the key through `intval` as well, as the value is | medium, not executed | AuthorSorter.StringKeyAddsBranches | AuthorSorter.SavedIdOrderRanksAuthors |
| woocommerce-subscriptions.php:139-141 | `in_array($order_id, $subscriptions)` on the value of `get_user_meta(..., true)` | a logged-in user without `wcs_active_subscriptions` opening `?cancel_subscription=5`: the meta is `""` and PHP 8 raises a TypeError | treat a missing list as holding nothing and do nothing | high, not executed | Subscriptions.CancellationWithoutMetaFails | Subscriptions.SubscribedMatchesInArray |
