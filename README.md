# Smartlead tag mapper — a Dafny model of its reconciliation and apply pipeline

The Smartlead Tag Mapper is a small Streamlit script, `app.py`. A user uploads
a CSV with an email column and a tag column. The script fetches the
account's email accounts and tags over GraphQL and resolves every row to an
email-account id and a tag id. It then applies the tags through Smartlead's
tag-mapping REST endpoint, in batches of at most 25 email accounts per tag.
It reports a per-row results table, a per-batch log and a summary of counts.

This project models the logic between the network calls. It is built from
the following pieces, one module each:

- **Normalize** (`normalize.dfy`): Python's `str.strip()` over the
  characters `str.isspace()` accepts, ASCII `str.lower()`, and the script's
  `trim` helper.
- **Lookup** (`lookup.dfy`): the filter that drops unusable GraphQL rows,
  written as a loop proved against a specification function. It also holds
  the `email_to_id` / `tag_to_id` dictionaries, where the last entry wins.
- **Reconcile** (`reconcile.dfy`): resolving each uploaded row to optional
  ids (`Option<int>` in place of pandas' nullable `Int64`), and classifying
  rows into the three skip reasons and the valid set.
- **Batching** (`batching.dfy`): grouping the valid rows by tag id in
  ascending order, as `groupby` does. Each group is cut into chunks of at
  most `EMAIL_BATCH_LIMIT` = 25. This module also defines `total_batches`.
- **Apply** (`apply.dfy`): the apply loop, as a method `ApplyTags` that loops
  over the groups and calls `ApplyGroup`, which loops over one group's chunk
  offsets. Both are proved equal to a fold (`Run`) over the planned calls. The properties of the results table, the log and
  the summary are proved about that fold. The tag-mapping call is an
  oracle: a total function from the call's ordinal, account ids and tag id
  to the `(ok, err_msg)` pair `apply_tags_batch` returns, so a call that
  never answers is outside the model (see "Left out"). How
  `apply_tags_batch` reads an HTTP answer is modelled separately, in
  `TagMappingOutcome`.
- **Reporting** (`reporting.dfy`): the summary counters agree with the
  statuses in the results table.
- **Wrappers** (`wrappers.dfy`): `Option`.

Two behaviours of `app.py` are easy to misread; the model follows the code.

- Duplicate normalised account emails or tag names are not reported. The
  dictionary comprehensions keep the id of the last one (app.py:122-127).
- In a dry run, every valid row's status becomes APPLIED and the row is
  counted in `applied`. Only the batch log entry says SKIPPED_DRY_RUN
  (app.py:203-215, 221).

## Model

| member | source | states |
|---|---|---|
| Normalize.Trim | app.py:22-23 | `None` gives `""`; the result has no leading or trailing whitespace and is no longer than its input |
| Normalize.TrimIsInfix | app.py:22-23 | what `trim` keeps is an infix of the text with only whitespace before and after it |
| Normalize.StripPadded | app.py:23 | `strip` of a text without edge whitespace, padded with whitespace on both sides, gives back that text |
| Normalize.StripLeft | app.py:23 | the leading whitespace is removed: the result is a suffix, the removed prefix is all whitespace, the first kept character is not whitespace |
| Normalize.StripRight | app.py:23 | the trailing whitespace is removed: the result is a prefix, the removed suffix is all whitespace, the last kept character is not whitespace |
| Normalize.TrimIdempotent | app.py:22-23 | `trim(None) == ""` and `trim(trim(s)) == trim(s)` |
| Normalize.TrimOfTrimmed | app.py:22-23 | a text without edge whitespace is a fixed point of `trim` |
| Normalize.KeyIdempotent | app.py:122-132 | the email key `trim(x).lower()` and the tag key, lowercased or not, normalise to themselves |
| Normalize.LowerNoEdgeSpace | app.py:122-130 | lowercasing a trimmed text leaves no edge whitespace |
| Lookup.KeepUsable | app.py:51-56 | the filter loop returns exactly `Kept(rows)`; the same loop appears at app.py:66-71 for tags |
| Lookup.KeptIsUsableRows | app.py:52-55 | the kept records are, in order, the records of exactly those rows whose id is present and whose name is neither null nor empty |
| Lookup.UsablePositions | app.py:53 | the positions of the usable rows, increasing, covering every usable row |
| Lookup.Index | app.py:122-127 | a key is in the dictionary exactly when some entry has that key |
| Lookup.IndexLastWins | app.py:122-127 | a key maps to the id of its last entry: no later entry has the same key |
| Lookup.LookupIndexLastWins | app.py:122-127 | in `email_to_id` / `tag_to_id`, a key maps to the id of the last record whose normalised name is that key |
| Reconcile.LookupIndexKeys | app.py:122-135 | a key is in a lookup dictionary exactly when some record normalises to it |
| Reconcile.ResolvedAccount | app.py:122-139 | a row's account id is present exactly when its normalised email is the normalised email of some account, and is then the id of the last such account |
| Reconcile.ResolvedTag | app.py:124-140 | a row's tag id is present exactly when its tag key (lowercased only when case-insensitive) is the key of some tag, and is then the id of the last such tag; the tag column keeps the user's case |
| Reconcile.InitialStatus | app.py:181-188 | no account with a tag gives SKIPPED_NO_ACCOUNT, no tag with an account gives SKIPPED_NO_TAG, neither gives SKIPPED_NO_ACCOUNT_AND_TAG, and the status stays blank exactly for valid rows |
| Reconcile.ValidIdx | app.py:188 | the positions of the valid rows, increasing, covering every valid row |
| Reconcile.BucketsPartition | app.py:181-188 | the three skip counts and the number of valid rows add up to the number of rows |
| Reconcile.ValidIdxOnce | app.py:188 | each valid row occurs once in `valid`, and no other position occurs |
| Batching.MinOf | app.py:199 | the least element of a non-empty sequence |
| Batching.Without | app.py:199 | removing one value keeps every other value and shortens the sequence when the value was present |
| Batching.AscendingSpec | app.py:199 | the sorted distinct values are strictly increasing and hold exactly the elements of the input |
| Batching.ValidTagsSpec | app.py:188-199 | the tags collected from `valid` are exactly the tag ids of valid rows |
| Batching.GroupKeysSpec | app.py:199 | the group keys are strictly increasing and are exactly the tag ids of valid rows |
| Batching.GroupIdx | app.py:199-200 | `sub.index` holds valid rows of that tag only, in increasing order |
| Batching.NumChunksIsCeiling | app.py:191 | `(n + 24) // 25` chunks of 25 hold n rows, and one fewer would not |
| Batching.ChunksEnd | app.py:200 | stepping through `range(0, len(ids), 25)` takes exactly `(n + 24) // 25` steps |
| Batching.Chunk | app.py:202-212 | every chunk holds between 1 and 25 elements |
| Batching.GroupBatches | app.py:201-212 | a group gives `ceil(n / 25)` calls |
| Batching.PlanLength | app.py:191-201 | the number of calls is `total_batches` |
| Batching.PlanBatchesSound | app.py:199-212 | every call sends 1 to 25 ids under one tag, and the rows it marks are exactly the valid rows of that tag whose ids it sends, position by position |
| Batching.GroupBatchesSound | app.py:200-212 | the same, for the calls of one group |
| Batching.GroupChunksWhole | app.py:200-212 | the chunks of a group, concatenated, are the group's rows and the group's ids, in order |
| Batching.GroupChunksConcat | app.py:201-202 | the first c chunks of a group, concatenated, are the first `25c` rows and ids of the group |
| Batching.PlanRowsAreGroups | app.py:199-212 | the rows marked by all calls are the groups' rows, group after group |
| Batching.PlanCoversValidOnce | app.py:199-212 | for any order of the groups, every valid row is marked by exactly one call and no other row is marked |
| Batching.GroupsCoverValid | app.py:188-199 | the groups together hold each valid row exactly once |
| Batching.ConcatGroupsSnoc | app.py:199 | a new row joins exactly the group of its tag |
| Batching.GroupKeysIsGroupOrder | app.py:199 | the ascending key order lists each valid tag once |
| Apply.Truncate | app.py:82-84 | `text[:300]` is the first 300 characters of the text, or the whole text when it is shorter |
| Apply.TagMappingOutcomeMeaning | app.py:73-84 | a call succeeds exactly when an API key is set and the status is 2xx, and then has no error text; otherwise the error is the missing-key text, the body's "message", or the first 300 characters of the raw body |
| Apply.MissingApiKeyRefusesAll | app.py:74-75 | with no API key, every call is refused with "SMARTLEAD_API_KEY missing" |
| Apply.ApplyTags | app.py:172-238 | the nested loop leaves exactly the results, logs and summary of the fold `ApplyRun`; the five buckets add up to `total_rows`, which is the number of rows; one log entry per batch; a dry run has no errors |
| Apply.ApplyGroup | app.py:200-224 | the loop over one group's chunk offsets ends in the state of running that group's calls in order |
| Apply.ApplyChunk | app.py:202-223 | one chunk: its rows become APPLIED or FAILED with the error text, the matching counter grows by the chunk size, and one log entry is appended |
| Apply.CoveredOnce | app.py:188-212 | each valid row is covered by exactly one call; no other row is covered |
| Apply.SummaryAddsUp | app.py:191-238 | `applied + errors` is the number of valid rows; the five buckets add up to `total_rows`; there is one log entry per call and `total_batches` calls; a dry run has no errors |
| Apply.RunCounters | app.py:213-219 | over any calls, `applied + errors` grows by the number of rows marked; a dry run adds no errors; an endpoint that refuses every call adds nothing to `applied` |
| Apply.RunLogsAre | app.py:203-221 | over any calls, the log is the earlier log followed by one entry per call, in call order, each numbered by its position in the whole log |
| Apply.LogsOfAt | app.py:221 | the j-th of those entries is the j-th call's own entry |
| Apply.ApplyRunLogs | app.py:197-221 | the log of the apply step holds exactly one entry per planned call, in order |
| Apply.StepAt | app.py:212-218 | after one call, a row it covers is APPLIED, or FAILED with the call's error text, and any other row is unchanged |
| Apply.MarkAt | app.py:213-218 | `results.loc[rows_idx, ...]` marks the listed rows and leaves every other row as it was |
| Apply.SetStatusAt | app.py:214-217 | writing the status column changes the listed rows' status and nothing else |
| Apply.SetErrorAt | app.py:218 | writing the error column changes the listed rows' error and nothing else |
| Apply.RunMarked | app.py:208-218 | a row covered by exactly one call ends with that call's outcome, whatever the other calls do |
| Apply.RunAppend | app.py:199-224 | running two lists of calls one after the other is running their concatenation, so the loop over groups is the loop over all calls |
| Apply.DryRunSame | app.py:203-206 | a dry run's state after any calls does not depend on the endpoint |
| Apply.RunKeepsRows | app.py:212-218 | marking rows changes only their status and error columns |
| Apply.RunUntouched | app.py:212-218 | a row no call covers keeps its status and error |
| Apply.ResultsKeepRows | app.py:176 | the results table keeps every mapped row, in order |
| Apply.SkippedRowKept | app.py:184-218 | a skipped row keeps its skip status and an empty error |
| Apply.ValidRowCovered | app.py:199-212 | every valid row is covered by some call |
| Apply.OnlyCall | app.py:199-212 | a row covered by a call is valid and is covered by no other call |
| Apply.RunMarkedFromStart | app.py:176-218 | over any calls run on the initial table, a row covered by exactly one call ends with that call's outcome, and its error column started empty |
| Apply.CallMarksItsRows | app.py:208-218 | a covered row ends APPLIED when its call succeeds; otherwise it ends FAILED with that call's error text |
| Apply.CallLogged | app.py:203-221 | the k-th log entry holds the k-th call's tag, size (1 to 25), batch status and error text |
| Apply.DryRunIgnoresEndpoint | app.py:203-206 | a dry run's report is the same whatever the endpoint would answer |
| Apply.DryRunOutcome | app.py:203-221 | in a dry run every log entry is SKIPPED_DRY_RUN with no error, every valid row ends APPLIED with no error, and `errors` is 0 |
| Apply.RefusedRunCounts | app.py:208-221 | against an endpoint that refuses every call, `applied` is 0, `errors` is the number of valid rows, and every log entry is FAILED with the endpoint's text |
| Apply.RefusedRunRow | app.py:208-219 | against such an endpoint, every valid row ends FAILED with the endpoint's text |
| Reporting.SummaryMatchesResults | app.py:213-238 | `applied` is the number of APPLIED rows and `errors` the number of FAILED rows; each skip counter is the number of rows with that status; no row is left blank or marked SKIPPED_DRY_RUN |
| Reporting.RunStatusCounts | app.py:213-219 | over calls whose rows do not repeat and start blank, the APPLIED and FAILED counts of the table grow as `applied` and `errors` do; other statuses keep their counts |
| Reporting.StepStatusCounts | app.py:213-219 | the same, for one call |
| Reporting.SetStatusCounts | app.py:214-217 | setting distinct blank rows to a status adds exactly that many rows to it and to no other status |
| Reporting.SetErrorCounts | app.py:218 | writing the error column changes no status count |
| Reporting.InitialCounts | app.py:181-186 | the status counts of the initial table are the mask sums |
| Reporting.CountsPartition | app.py:177-186 | every row has exactly one status, so the status counts add up to the number of rows |
| Reporting.NeverInitially | app.py:177-186 | before the loop no row is APPLIED, FAILED or SKIPPED_DRY_RUN |

## Left out

- The Streamlit UI: widgets, `st.session_state`, page setup and the progress bar, including its floating-point ratio (app.py:18-19, 87-117, 145-170, 192-193, 223-224, 240-268). The `done_batches` counter only feeds the progress bar. It always equals the number of log entries, which the model passes to the endpoint oracle as the call's ordinal.
- Reading the CSV (app.py:25-41): chardet encoding detection and separator sniffing are library heuristics. The model starts from rows of two cells, where a missing cell reads as the text "nan", as `astype(str)` makes it.
- Other pandas missing-value spellings are left out. Only a truly missing cell is modelled, and it becomes "nan".
- The HTTP calls (app.py:44-50, 59-65, 76-78): the GraphQL POSTs and the tag-mapping POST. The model starts from the rows the GraphQL answers hold. The POST's answer is a parameter: its status code, its "message" field if any, and its text. A body whose "message" is not a string, or that fails to parse, is treated as having no "message".
- `int(r["id"])` (app.py:55, 70): ids are already integers in the model, so a failing conversion is not modelled. The model's ids are unbounded: `astype("Int64")` and `astype(int)` (app.py:134-135, 200) raise on ids outside 64 bits, and the model has no such failure. Also, when some row has no match, `Series.map` (app.py:134-135) returns floats, so ids above 2^53 are rounded before `astype("Int64")` and can come out as a different id. The model keeps every id exact, so `Reconcile.ResolvedAccount` and `Reconcile.ResolvedTag` ("the id of the last such account/tag") describe the source only for ids up to 2^53.
- A POST that never answers. `requests.post(..., timeout=60)` (app.py:78) is outside the `try` of app.py:81-84, and the loop of app.py:199-224 has no `try`. A timeout or connection error therefore aborts the whole apply step: later chunks are not sent, their rows keep a blank status, and no summary, log or results table is stored (app.py:240-242 is not reached). The endpoint oracle (`Apply.Caller`) always answers. So `Reporting.SummaryMatchesResults` (no row left blank), `Apply.CallLogged` (every planned call logged), `Apply.SummaryAddsUp` and the other whole-run lemmas describe only runs in which every POST answers.
- `st.cache_data` caching and loading secrets (app.py:15-16, 43, 58): the API key is a parameter of `Apply.LiveEndpoint`.
- The CSV exports with `na_rep="n/a"` (app.py:158-164, 264): a serialisation detail.
- Normalize.Lower: lowercases ASCII letters only. Python's full Unicode `str.lower` tables are not modelled.
- Group order: the loop and its lemmas follow pandas' default ascending `tag_id` order. Coverage (`Batching.PlanCoversValidOnce`) is proved for any order that lists each valid tag once.
- The results table is a sequence of records that the loop reassigns. In-place `DataFrame.loc` updates and pandas copies and aliasing are not modelled.
