# Easy Feedback Form: a verified model of the plugin's core

This project models the rules inside the WordPress plugin *Easy Feedback Form*
that can be stated precisely. It is written in Dafny and proves properties of
that model.

- **Autoloader** (`autoloader.dfy`). The `spl_autoload_register` closure maps a class name with the
  `EFF_` prefix to a file under `includes/` or `includes/admin/`. The file is required only if it exists.
- **Form handler** (`form_handler.dfy`):
  - the per-IP submission limiter, a counter held in a transient: absent, then 1 up to 25;
  - the field validator: byte ceilings are checked on the raw values, and emptiness and the
    address check on the sanitized values;
  - the decision flow of a form POST: no-op, 403, 429, error redirect, insert and success redirect, or 500.
- **Feedback table** (`database.dfy`). The table is a class holding the rows and the AUTO_INCREMENT
  counter. `insert_feedback` appends one row. `delete_feedback` deletes a row, renumbers the
  survivors 1..N in ascending `created_at` order through `temp_ids`, resets AUTO_INCREMENT to N+1,
  and runs inside a transaction that rolls back on an exception.
- **Admin list view** (`list_submissions.dfy`): page clamp, offset and page count; cache-aside reads
  of the total count and of one page; the status column; the two status notices.
- **Admin detail view** (`single_submission.dfy`): the capability, nonce and id checks (403/400),
  the cache-aside read of one row (404), the one-way `read_status` 0 → 1 flip with its cache
  invalidation, and the "Back to List" link.
- **Shared pieces** (`php.dfy`, `object_cache.dfy`):
  - the PHP built-ins the code relies on: `empty()`, `intval`, integer-to-string, `strtolower`,
    `str_replace` on one character, `strpos`, `strtok`;
  - WordPress's object cache, as a class over a map from (group, key).

WordPress functions whose internals do not belong to the plugin are parameters of the model. These
are the sanitizers, `is_email`, `wp_verify_nonce`, `sanitize_url`, `md5`, `admin_url`, the tokens
from `wp_hash(uniqid())`, the referer, `current_user_can` and `file_exists`. `wp_die` and the
redirects are outcome values. Request values arrive already unslashed.

Where the code and its documentation disagree, the model follows the code:

- `insert_feedback` returns the affected-row count or `false`, not the new id. The model returns whether the insert succeeded.
- The handler passes already sanitized values to `insert_feedback`, which sanitizes them again.
  The stored row therefore holds each sanitizer applied twice.
- PHP `empty()` is true for `"0"`. A name or a message that sanitizes to `"0"` is "missing".
- The loader maps only `EFF_*` names, while the class files declare `EEFORM_*` classes. No
  `EEFORM_*` class can be loaded through it (`Autoloader.EeformClassesAreNotAutoloaded`).
- After a delete, only the deleted id's per-row cache entry is dropped. Survivors change ids,
  but their `eeform_submission_<id>` entries stay. A later detail view can therefore show a
  stale row under a renumbered id (`Database.StaleItemAfterDelete`). The model proves this
  incoherence; it does not claim the cache stays coherent.

## Model

| member | source | states |
|---|---|---|
| Php.IntVal | includes/admin/views/list-submissions.php:23 | `intval` of a string always lies in PHP_INT_MIN..PHP_INT_MAX |
| Php.IntValOfIntToString | includes/admin/views/list-submissions.php:23 | `intval` reads back every integer written in decimal |
| Php.NatToStringRoundTrip | includes/admin/views/list-submissions.php:42 | the digits written for n evaluate back to n |
| Php.IntToStringInjective | includes/admin/views/list-submissions.php:42 | distinct integers are written as distinct strings |
| Php.Contains | includes/admin/views/single-submission.php:105 | `strpos(...) !== false` holds exactly when the needle occurs at some position |
| Php.StrTok | includes/class-form-handler.php:141 | `strtok` gives `false` exactly for a string of delimiters only; otherwise a non-empty token free of the delimiter |
| Php.StrTokIsPrefix | includes/class-form-handler.php:141 | for a URI not starting with '?', the token is the part before the first '?' |
| ObjectCache.WithoutGroup | includes/class-database.php:106 | a group flush keeps exactly the entries of the other groups, with their values |
| ObjectCache.Cache.Get | includes/admin/views/list-submissions.php:28 | a hit returns the stored value; a miss returns nothing |
| ObjectCache.Cache.Set | includes/admin/views/list-submissions.php:35 | the store changes at that address only |
| ObjectCache.Cache.Delete | includes/class-database.php:183 | the store loses that address only |
| ObjectCache.Cache.FlushGroup | includes/class-database.php:185 | the store becomes the flush of that group |
| Autoloader.FileSlug | easy-feedback-form.php:38-41 | the slug has the name's length; each `_` becomes `-` and every other byte is lower-cased, so no `_` and no capital remains |
| Autoloader.ClassFile | easy-feedback-form.php:24-42 | a path exists exactly for names with the `EFF_` prefix; it starts with `EFF_PLUGIN_DIR . 'includes/'` and ends in `.php` |
| Autoloader.AutoloadRequiresOnlyExistingMappedFiles | easy-feedback-form.php:24-47 | nothing is required without the prefix; a required file is the mapped path and exists; an existing mapped path is required |
| Autoloader.Autoload | easy-feedback-form.php:44-47 | a required file is the mapped path of the class and exists; a mapped path that exists is required |
| Autoloader.ClassFileLayout | easy-feedback-form.php:34-42 | the path is the base, `admin/` exactly when the name minus its first 4 characters starts with `Admin_`, then `class-`, the slug and `.php` |
| Autoloader.FileSlugIgnoresCase | easy-feedback-form.php:38-41 | names that differ only in letter case give the same file name |
| Autoloader.FileSlugRoundTrip | easy-feedback-form.php:38-41 | for a name without `-`, turning `-` back into `_` gives the lower-cased name |
| Autoloader.EeformClassesAreNotAutoloaded | easy-feedback-form.php:24-31 | a name starting with `EEFORM_` maps to no path and loads nothing |
| Autoloader.AdminPageClassFile | easy-feedback-form.php:37-38 | `EFF_Admin_Page` maps to `includes/admin/class-admin-page.php` |
| Autoloader.DatabaseClassFile | easy-feedback-form.php:39-42 | `EFF_Database` maps to `includes/class-database.php` |
| Autoloader.AdminTestIsCaseSensitive | easy-feedback-form.php:37-42 | `EFF_admin_Page` misses the case-sensitive `Admin_` test and maps outside `admin/`, to the same file name |
| FormHandler.ValidateFields | includes/class-form-handler.php:59-82 | at most 3 errors, in field order; each error appears exactly under its condition (raw length over 100/100/1000, or `empty()` / `is_email` on the sanitized value); no errors exactly when all fields are valid |
| FormHandler.TransientStore.Get | includes/class-form-handler.php:33 | returns the stored transient, or nothing |
| FormHandler.TransientStore.Set | includes/class-form-handler.php:36 | the store changes at that key only |
| FormHandler.TransientStore.Expire | includes/class-form-handler.php:36 | the end of the hour removes that key only |
| FormHandler.LimiterState | includes/class-form-handler.php:23-46 | an empty address leaves the store alone; only that address's counter can change; a refusal changes nothing |
| FormHandler.LimiterAllows | includes/class-form-handler.php:23-45 | an empty address or a missing counter is allowed; a stored counter is allowed exactly when it is below 25; any other stored value is refused |
| FormHandler.CheckRateLimit | includes/class-form-handler.php:23-46 | the answer and the new store are the limiter's verdict and state for the store as found |
| FormHandler.TwentyFivePerWindow | includes/class-form-handler.php:32-45 | from no counter, calls 1..25 pass and every later call is refused; after n calls the counter is min(n, 25) |
| FormHandler.ExpiryStartsNewWindow | includes/class-form-handler.php:32-38 | once the counter has expired, the next call passes and stores 1 |
| FormHandler.TransientKeysDisjoint | includes/class-form-handler.php:136-153 | limit, error and success keys never collide |
| FormHandler.SubmissionOutcome | includes/class-form-handler.php:87-165 | each outcome happens exactly at its point in the fixed order (no-op, 403, 429, error redirect, success redirect, 500); redirect bases and tokens |
| FormHandler.StoreAfterEffects | includes/class-form-handler.php:120-153 | nothing is stored before the nonce passes; errors are stored with the raw input under the error token, and the error key is untouched otherwise; the success flag is stored after an insert, and the success key is untouched otherwise |
| FormHandler.StoreAfter | includes/class-form-handler.php:125-153 | a request changes the transients at most under the client's limit key, the error key and the success key |
| FormHandler.StoreAfterKeepsLimiterCounts | includes/class-form-handler.php:125-136 | a request stores only counters under limit keys |
| FormHandler.HandleSubmission | includes/class-form-handler.php:87-165 | outcome and transients as the spec functions give; the table and cache change only when the insert is attempted; a success appends the sanitized row; a 500 changes nothing |
| Database.ItemKeyInjective | includes/admin/views/single-submission.php:54 | distinct ids have distinct per-row cache keys |
| Database.ItemKey | includes/admin/views/single-submission.php:54 | the key starts with `eeform_submission_` and `intval` of the rest gives the id back |
| Database.FindById | includes/admin/views/single-submission.php:64-68 | a found row is in the table with that id; nothing is found exactly when no row has the id |
| Database.WithoutMembers | includes/class-database.php:132-136 | the delete keeps exactly the rows with another id |
| Database.Without | includes/class-database.php:132-136 | the delete drops exactly as many rows as carry the id, and no row with the id remains |
| Database.WithoutKeepsUniqueIds | includes/class-database.php:132-136 | the delete keeps ids unique |
| Database.WithoutRemovesOneRow | includes/class-database.php:132-136 | an existing id removes exactly one row, a missing id none, and the id is gone afterwards |
| Database.InsertByCreated | includes/class-database.php:140 | insertion adds exactly the one row |
| Database.InsertKeepsSorted | includes/class-database.php:140 | insertion keeps ascending `created_at` order |
| Database.SortByCreated | includes/class-database.php:140 | the result is a permutation of the rows in ascending `created_at` order |
| Database.InsertKeepsUniqueIds | includes/class-database.php:140 | inserting a new id keeps ids unique |
| Database.SortKeepsUniqueIds | includes/class-database.php:140 | sorting keeps ids unique |
| Database.SortOfSorted | includes/class-database.php:140 | rows already in order sort to themselves (ties keep their physical order) |
| Database.NumberingFacts | includes/class-database.php:144-158 | `temp_ids` maps exactly the selected old ids, the k-th to k + 1 |
| Database.FillTempIds | includes/class-database.php:151-158 | the loop fills `temp_ids` with exactly that numbering |
| Database.Remap | includes/class-database.php:162-167 | the `UPDATE ... JOIN` changes each mapped row's id to its new id and nothing else |
| Database.NewIdPosition | includes/class-database.php:140-167 | each survivor gets id p + 1, p being its position in creation order |
| Database.ReindexKeepsContent | includes/class-database.php:162-167 | renumbering changes ids only; every row keeps its place and other columns |
| Database.Reindexed | includes/class-database.php:140-167 | the renumbered table has as many rows as before, and each row keeps its place and every column but the id |
| Database.ReindexIsDense | includes/class-database.php:140-167 | after renumbering, the N rows carry exactly the ids 1..N, each once |
| Database.ReindexKeepsUniqueIds | includes/class-database.php:162-167 | renumbering yields unique ids |
| Database.ReindexFollowsCreation | includes/class-database.php:140-158 | a row created earlier gets a smaller new id |
| Database.ReindexOfSorted | includes/class-database.php:140-167 | on rows already in creation order, position p gets id p + 1 |
| Database.SurvivorsOfNumbered | includes/class-database.php:132-136 | deleting id d from a table numbered 1..N splices out row d and keeps order and unique ids |
| Database.DeleteShiftsLaterIds | includes/class-database.php:132-167 | deleting id d keeps the earlier rows as they are and moves every later row down by one id |
| Database.FindAfterShift | includes/class-database.php:162-167 | after deleting an earlier id, reading id k finds the row that used to be k + 1, or nothing at the end |
| Database.ItemEntrySurvivesDelete | includes/class-database.php:183-185 | the post-commit invalidation leaves every other id's per-row entry in place |
| Database.StaleItemAfterDelete | includes/class-database.php:183 | after deleting d, the cached entry for a later id k still holds the old row k while the table's row k is a different one |
| Database.FeedbackTable.InsertFeedback | includes/class-database.php:81-110 | success iff the engine accepts and the id fits `mediumint(9)`; a success appends one sanitized row with `read_status = 0` under the next id, advances the counter and flushes the list group; a failure changes nothing |
| Database.FeedbackTable.DeleteFeedback | includes/class-database.php:121-194 | true iff no exception; up to COMMIT an exception restores rows, counter and cache; otherwise rows are the renumbered survivors and the counter N + 1; the invalidation runs only after COMMIT |
| Database.FeedbackTable.RunUntilCommit | includes/class-database.php:127-180 | the statements up to COMMIT: reports a throw exactly when the fault falls before COMMIT; otherwise the rows become the renumbered survivors and the counter N + 1 |
| Database.FeedbackTable.MarkRead | includes/admin/views/single-submission.php:88-94 | the table becomes the marked table; ids and counter keep their invariant |
| Database.MarkedRead | includes/admin/views/single-submission.php:88-94 | exactly the rows with that id get `read_status = 1`; the rest are unchanged |
| Database.MarkedReadFlipsOnce | includes/admin/views/single-submission.php:86-96 | marking twice equals marking once, ids are unchanged, and the marked rows are read |
| Database.FindMarkedRead | includes/admin/views/single-submission.php:88-96 | reading the marked table finds the row with its flag set |
| ListSubmissions.CurrentPage | includes/admin/views/list-submissions.php:23 | the page is at least 1 and at most PHP_INT_MAX |
| ListSubmissions.CurrentPageOfLink | includes/admin/views/list-submissions.php:23 | `paged=n` for a page n ≥ 1 gives page n |
| ListSubmissions.CurrentPageClamps | includes/admin/views/list-submissions.php:23 | a missing `paged`, or one whose `intval` is below 1, gives page 1; otherwise the `intval` |
| ListSubmissions.Offset | includes/admin/views/list-submissions.php:24 | the offset is non-negative, a multiple of 15, and (page − 1) × 15 |
| ListSubmissions.TotalPages | includes/admin/views/list-submissions.php:38 | the result is ceil(total / 15): (pages − 1) × 15 < total ≤ pages × 15 |
| ListSubmissions.TotalPagesOfCount | includes/admin/views/list-submissions.php:38 | no rows gives no pages; every page up to the last starts before the end |
| ListSubmissions.NewestFirst | includes/admin/views/list-submissions.php:48-53 | a permutation of the rows in descending `created_at` order |
| ListSubmissions.PageRows | includes/admin/views/list-submissions.php:48-53 | at most 15 rows: the newest-first listing from the offset on, in descending order |
| ListSubmissions.EveryRowOnItsPage | includes/admin/views/list-submissions.php:21-53 | listing position k is row k mod 15 of page k div 15 + 1, that page exists, and no other page holds it |
| ListSubmissions.PageKeyInjective | includes/admin/views/list-submissions.php:42 | distinct pages have distinct cache keys |
| ListSubmissions.PageKey | includes/admin/views/list-submissions.php:42 | the key is `eeform_submissions_page_`, the page, `_per_15`; `intval` of the middle gives the page back |
| ListSubmissions.PageKeyIsNotCountKey | includes/admin/views/list-submissions.php:27-42 | no page key is the count's key |
| ListSubmissions.CountCacheKeepsPage | includes/admin/views/list-submissions.php:34-43 | storing the count leaves the page lookup as it was |
| ListSubmissions.CountCacheAfter | includes/admin/views/list-submissions.php:27-37 | only the count key may change; a hit or a zero count leaves the cache exactly as it was; a missed non-zero row count is stored under the count key; a non-zero count is then a cache hit with the same value |
| ListSubmissions.PageCacheAfter | includes/admin/views/list-submissions.php:42-57 | only the page key may change; a hit or an empty page leaves the cache exactly as it was; a missed non-empty page query result is stored under the page key; a non-empty page is then a cache hit with the same rows |
| ListSubmissions.CacheAfterList | includes/admin/views/list-submissions.php:26-57 | a view changes the cache at most at the count and page keys; a non-zero count and a non-empty page are then served from the cache; a zero count leaves the count key as it was and an empty page leaves the page key as it was |
| ListSubmissions.ReadCount | includes/admin/views/list-submissions.php:27-37 | the count shown is a cached count on a hit, else the row count; only a non-zero missed count is stored |
| ListSubmissions.ReadPage | includes/admin/views/list-submissions.php:42-57 | the rows shown are a cached page on a hit, else the page query; only a non-empty missed page is stored |
| ListSubmissions.FlushedListIsFresh | includes/admin/views/list-submissions.php:28-53 | after a list-group flush, the view shows the table's own count and page |
| ListSubmissions.CountShown | includes/admin/views/list-submissions.php:27-37 | the count shown is the table's row count or the count cached under the count key; with the list group flushed it is the row count |
| ListSubmissions.PageShown | includes/admin/views/list-submissions.php:42-57 | the rows shown are the page query's or the page cached under the page key; with the list group flushed they are the query's |
| ListSubmissions.StatusOf | includes/admin/views/list-submissions.php:105-114 | a row shows "New" exactly when `read_status` is 0; a row without the column shows "Read" |
| ListSubmissions.RenderRows | includes/admin/views/list-submissions.php:103-114 | one line per row, in order, with its id, status, name and email |
| ListSubmissions.NoticeOnlyForOne | includes/admin/views/list-submissions.php:61-79 | among the values a redirect can carry, only 1 shows a notice; a missing parameter shows none |
| ListSubmissions.NoticeShown | includes/admin/views/list-submissions.php:61-79 | a notice needs the parameter present and neither "" nor "0" |
| ListSubmissions.ShowList | includes/admin/views/list-submissions.php:8-79 | 403 without the capability and no cache change; otherwise the current page, the page count of the shown count, one line per shown row with its id, status, name and email, the two notices, and the new cache of CacheAfterList |
| SingleSubmission.CheckRequest | includes/admin/views/single-submission.php:17-38 | 403 exactly when both parameters are present and the nonce fails for `view_feedback_` + raw id; then the id is `intval` of the raw id; a missing parameter leaves id 0 |
| SingleSubmission.ListLinkReachesRow | includes/admin/views/list-submissions.php:127-136 | a view link built by the list reaches the row with that id |
| SingleSubmission.CacheAfterRead | includes/admin/views/single-submission.php:58-75 | only the row's key can change; the row shown is the same before and after; a hit, or no row found, leaves the cache as it was; a missed row that the query finds is stored under its key |
| SingleSubmission.SubmissionShown | includes/admin/views/single-submission.php:54-83 | nothing is shown only when the table has no row with the id; without cached rows, a row is shown exactly when the table has one with the id, and it is that row |
| SingleSubmission.CacheAfterMark | includes/admin/views/single-submission.php:98-100 | the row's key and the list group are gone; everything else is unchanged |
| SingleSubmission.BackLinkNeedsOnlyMarker | includes/admin/views/single-submission.php:104-107 | the link is the referer exactly when it contains `page=easy-feedback-form`, otherwise the list's admin URL; the falsy test never decides |
| SingleSubmission.BackLink | includes/admin/views/single-submission.php:104-107 | the link is the list page's admin URL or the referer itself, and then the referer contains `page=easy-feedback-form` |
| SingleSubmission.ShowSubmission | includes/admin/views/single-submission.php:8-107 | 403, 400, 404 in that order, changing nothing; otherwise the row is shown; an unread row is marked read in the table and the returned row, and its cache entry and the list group are invalidated; a read row changes nothing but the cache fill |
| SingleSubmission.RereadShowsSameRow | includes/admin/views/single-submission.php:58-75 | after a read, a second read shows the same row and caches nothing more |
| SingleSubmission.SecondViewMakesNoUpdate | includes/admin/views/single-submission.php:86-101 | after a view that marked the row, the next view finds it read (or finds nothing), so the flag flips at most once |

## Left out

- HTML rendering, escaping, translation and dates are presentation. So are `paginate_links`, the message excerpt and the e-mail obfuscation.
- Hook, menu, shortcode and style registration are WordPress plumbing: `init`, `render_form`, `enqueue_styles`, the activation hook and `plugins_loaded`.
- `EEFORM_Database::create_tables` and `maybe_upgrade` (`dbDelta`, `SHOW COLUMNS`, `ALTER TABLE`) are not modelled. Schema installation is outside the core; a table without `read_status` appears only as rows whose `readStatus` is `None`.
- `includes/admin/class-admin-page.php` is not part of this model. It routes nonce → capability → `delete_feedback` → redirect. Its post-delete `wp_cache_delete` of `eeform_submission_<id>` names the list group, which holds no such key.
- The internals of the sanitizers, `is_email`, `wp_verify_nonce`, `sanitize_url`, `md5`, `wp_hash(uniqid())` and `admin_url` are not modelled; they are parameters.
- Transient and cache lifetimes (30 s, 60 s, one hour) are wall-clock behaviour. A transient's expiry is the explicit `Expire` event. Cache entries live until deleted or flushed.
- FormHandler.TwentyFivePerWindow: the "window" is the life of one counter, not a fixed clock hour. Every allowed call rewrites the counter with a fresh hour (lines 36 and 44 of `includes/class-form-handler.php`), so the counter expires an hour after the last allowed call; a refused call does not renew it. Placing `Expire` is left to the caller, so both readings fit the model.
- Concurrency between requests and transaction isolation are host-engine behaviour.
- Database.FeedbackTable.DeleteFeedback: models the transaction as the code intends it: an exception up to COMMIT restores the table. Two engine behaviours are not modelled. MySQL's `ALTER TABLE` commits implicitly, and `$wpdb` reports SQL errors by return value rather than by exception.
- Database.FeedbackTable.InsertFeedback: the engine's refusal is the `accepted` parameter. Truncation of over-long values by the `varchar` columns is not modelled.
- Php.IntVal: exponent forms such as "1e3" are not modelled. Leading whitespace, a sign, a digit prefix and saturation are.
- FormHandler.HandleSubmission: `add_query_arg` on a `false` base is kept as a `None` base; the URL it then builds is not modelled. Array-valued request parameters are not modelled.
- FormHandler.RateAllows: a value other than a counter under a limit key is refused. Only counters are ever stored there (`FormHandler.StoreAfterKeepsLimiterCounts`).
- ListSubmissions.ShowList: a cache hit holding the wrong kind of value counts as a miss. The plugin never writes one.
- ListSubmissions.NewestFirst: SQL leaves the order of equal `created_at` values open. The model uses the reverse of a stable ascending sort and proves only non-strict order.
- ListSubmissions.Offset: the SQL `OFFSET` is unbounded here. A page so large that (page − 1) × 15 exceeds the engine's integer range is not modelled.
- SingleSubmission.ShowSubmission: a stale cached row (see `Database.StaleItemAfterDelete`) is shown as cached, and the `UPDATE` still targets the requested id.
