# Facebook Ads ad-creative extraction and DAG runner, modelled in Dafny

This project models two pieces of a Facebook Ads ETL pipeline.

- **Ad-creative extraction** (`etl/extract_ad_creative.py`), module
  `AdCreativeExtract` in `extract_ad_creative.dfy`. Given an account and a
  list of ad ids, the extractor:
  - returns an empty table without touching the API when the list is empty;
  - otherwise creates an SDK client and, ad by ad, looks up the ad's
    creative id and, when there is one, that creative's thumbnail URL.

  It builds one row per ad. The first error aborts the run with a
  classified error whose `retryable` flag says whether retrying may help:
  - an expired token (code 190) is never retryable;
  - a server-class HTTP status or a transient code (1, 2, 4, 17, 80000) is
    retryable;
  - anything else is not.

  The SDK is replaced by an `Api` value, two total lookup functions that
  return either the field or the exception raised. Every lookup goes into a
  call trace, so "no later ad is looked up" can be stated.
- **DAG runner** (`dags/dags_facebook_ads.py`), module `DagsFacebookAds` in
  `dags_facebook_ads.dfy`. The runner:
  - announces every task;
  - submits each task to a worker pool;
  - handles the futures in completion order, printing one report block per
    completion: a success or failure banner, the stripped output, and the
    number of tasks still outstanding.

  The pool is abstracted. The completion order is a parameter, a
  permutation of the task names. What each task's callable does (return,
  leaving some contents in its capture buffer, or raise) is a parameter too. Printed lines are values of
  `ReportLine`, with message texts reduced to their constructor.
- **Python's `str.strip()`** (module `PyStr` in `pystr.dfy`), used on each
  task's output before printing.

`wrappers.dfy` holds the `Option` and `Result` datatypes.

## Model

| member | source | states |
|---|---|---|
| AdCreativeExtract.Classify | etl/extract_ad_creative.py:110-165 | The error classifier as a decision table. The error is retryable exactly when it is an API error whose code is not 190 and whose HTTP status is 500 or more or whose code is in {1, 2, 4, 17, 80000}. Retryable coincides with the retryable-API-error kind. The kind is expired-token, naming the account, exactly when the code is 190. It is unknown-error exactly for a non-API exception. It is permanent-API-error exactly for an API error that is neither code 190 nor retryable. Every kind other than expired-token names the ad being processed. |
| AdCreativeExtract.ExpiredTokenDominates | etl/extract_ad_creative.py:120-139 | The expired-token check comes before the retryable check: code 190 is non-retryable even when the status is a server error. |
| AdCreativeExtract.ProcessAd | etl/extract_ad_creative.py:80-108 | One loop iteration, as a full case table. The first call is always the ad lookup. A raise there gives that error classified under this ad, with no creative lookup. A missing or empty creative id gives a row with both optional fields `None` and no second call. Otherwise the creative is looked up once, and the row carries the creative id and the thumbnail, or the error is classified under this ad. Every row carries the account and ad id. |
| AdCreativeExtract.ExtractLoop | etl/extract_ad_creative.py:80-165 | The loop succeeds iff every ad succeeds, with one row per ad in input order, each the row its iteration produced. If the first failing ad is at index k, the loop raises exactly that ad's classified error. Its calls are then exactly those of ads 0..k, so no later ad is looked up. |
| AdCreativeExtract.FirstFailureExists | etl/extract_ad_creative.py:80-165 | When not every ad succeeds there is a first failing index, so the failure clauses of the loop always apply. |
| AdCreativeExtract.AdsLookedUpPerAd | etl/extract_ad_creative.py:80-82 | Reading the ad lookups back out of the call trace gives exactly the input ad ids, in order: each ad is looked up exactly once. |
| AdCreativeExtract.ExtractAdCreative | etl/extract_ad_creative.py:35-172 | With no ad ids: an empty result and no call, not even client creation. Otherwise client creation comes first. If it fails, the error is non-retryable, names the account, and nothing else is called. The run succeeds iff it has no ad ids, or the client is created and every ad succeeds. On success: one row per ad id, in order, with the account and that ad's id. The whole call trace is client creation followed by each ad's own calls, so every ad is looked up exactly once and an ad without a creative id gets no creative lookup. On failure after client creation: the first failing ad exists, its error is the one raised, and only ads up to and including it were looked up. |
| PyStr.Strip | dags/dags_facebook_ads.py:97-98 | `output.strip()` neither starts nor ends with whitespace, and is no longer than its input. |
| PyStr.StripCutsOnlySpace | dags/dags_facebook_ads.py:97-98 | What strip keeps is a contiguous piece of the input, and everything it cuts from either end is whitespace. |
| PyStr.StripOfPadded | dags/dags_facebook_ads.py:97-98 | Independent characterisation: stripping whitespace padding off a trimmed core returns exactly that core. |
| PyStr.StripIdempotent | dags/dags_facebook_ads.py:97-98 | Stripping twice is stripping once. |
| DagsFacebookAds.Announce | dags/dags_facebook_ads.py:40-44 | One triggering line per task, in task-map order, and no banner, count or output among them. |
| DagsFacebookAds.FutureAsWritten | dags/dags_facebook_ads.py:54-66 | The submitted lambda as written always raises. A raising callable propagates its own exception. A returning callable hits the `IndexError` of exiting a never-entered `redirect_stdout`. |
| DagsFacebookAds.AsWrittenAlwaysFails | dags/dags_facebook_ads.py:54-94 | As written, every task is reported FAILED. A task whose callable returned is reported with the text "pop from empty list". |
| DagsFacebookAds.AsWrittenReportsSuccessAsFailure | dags/dags_facebook_ads.py:54-94 | Concrete input: a callable that prints "extracted 3 rows" and returns is reported FAILED as written, and SUCCESS with its output when the capture is scoped. |
| DagsFacebookAds.FutureScoped | dags/dags_facebook_ads.py:54-66 | The lambda as evidently intended: the future returns iff the callable returned, carrying its capture buffer's contents; otherwise it raises the callable's exception. |
| DagsFacebookAds.Resolve | dags/dags_facebook_ads.py:76-83 | The status is FAILED iff `result()` raised. The output is then the exception's string, otherwise the fourth tuple component. |
| DagsFacebookAds.ScopedStatusMatchesCallable | dags/dags_facebook_ads.py:54-83 | With a scoped capture, the status is SUCCESS iff the callable returned. The output is the capture buffer's contents, or the exception text. |
| DagsFacebookAds.ReportBlock | dags/dags_facebook_ads.py:85-107 | A block opens with the banner naming the task and its status, then a rule, and holds no announcement line. |
| DagsFacebookAds.BlockProjections | dags/dags_facebook_ads.py:85-107 | A block holds exactly one banner and exactly one remaining count. It holds the stripped output exactly when the unstripped output is non-empty (`if output:`). |
| DagsFacebookAds.BlockLayout | dags/dags_facebook_ads.py:85-107 | The line order inside a block. It has five lines, or six with the output. It ends with a rule-and-gap, the remaining count and a rule-and-gap. |
| DagsFacebookAds.Step | dags/dags_facebook_ads.py:72-107 | One completion. The task joins `completed`, and the set grows by one when the task is new. Exactly one report is appended and earlier ones are kept. It names the task, carries the resolved verdict, and counts `len(tasks) - len(completed)` after the addition. |
| DagsFacebookAds.StepNewTask | dags/dags_facebook_ads.py:72-102 | For a task not yet completed, the count reported is one below the number outstanding before the step. |
| DagsFacebookAds.ExpectedReportsAt | dags/dags_facebook_ads.py:72-107 | Set-free reference: the k-th report names the k-th completed task with its verdict and counts `before - 1 - k`. |
| DagsFacebookAds.LoopCompletes | dags/dags_facebook_ads.py:70-74 | After the loop, `completed` is the starting set plus exactly the tasks handled. |
| DagsFacebookAds.LoopMatchesReference | dags/dags_facebook_ads.py:70-107 | While the tasks still to come are distinct and not yet completed, the set-based loop makes exactly the reference reports. |
| DagsFacebookAds.PermutationOfDistinct | dags/dags_facebook_ads.py:35-38 | A completion order that yields every future exactly once is distinct, has as many entries as tasks, and names the same tasks. |
| DagsFacebookAds.CompletionLoop | dags/dags_facebook_ads.py:70-107 | From an empty set and over such an order, the final `completed` set is all task names. The reports are exactly the reference reports. |
| DagsFacebookAds.Dag | dags/dags_facebook_ads.py:35-107 | The whole run with a scoped capture. It announces every task in task-map order. The final `completed` set is all task names. There is one report per task, in completion order. The k-th report names the k-th completed task, with status and output as its callable decided, and counts `len(tasks) - 1 - k`. |
| DagsFacebookAds.DagReportsEachTaskOnce | dags/dags_facebook_ads.py:35-107 | Every task is reported exactly once and nothing else is reported, whatever the completion order and however many tasks fail. |
| DagsFacebookAds.DagAsWritten | dags/dags_facebook_ads.py:35-107 | The whole run with the lambda as written. The announcements, the final `completed` set, the report order and the countdown are as in `Dag`. Every report is FAILED: a returning task with "pop from empty list", a raising task with its own exception text. |
| DagsFacebookAds.RenderProjections | dags/dags_facebook_ads.py:85-107 | The printed blocks hold one banner and one count per report, in report order. |
| DagsFacebookAds.RunLines | dags/dags_facebook_ads.py:40-107 | The printed lines of a run hold, after the announcements, one banner and one count per report, in order. |
| DagsFacebookAds.DagBanners | dags/dags_facebook_ads.py:40-94 | With the scoped capture: the printed lines start with the announcements, then hold one banner per task, in completion order, with the status its callable decided. |
| DagsFacebookAds.DagCountdown | dags/dags_facebook_ads.py:102-106 | The remaining counts printed fall strictly, by one per completion, from one less than the number of tasks down to 0. |
| DagsFacebookAds.TwoTaskReports | dags/dags_facebook_ads.py:35-107 | With the source's two tasks in either completion order, the run makes exactly two reports: the first to finish counting 1, then the other counting 0. |
| DagsFacebookAds.TwoTaskScenario | dags/dags_facebook_ads.py:35-107 | With the scoped capture, take the source's two tasks in either completion order, with `ad_insights` raising and `campaign_insights` returning. The reports are exactly: the first finisher counting 1, then the other counting 0. `ad_insights` is FAILED with its exception text. `campaign_insights` is SUCCESS with its capture buffer's contents. |
| DagsFacebookAds.TwoTaskReportsAsWritten | dags/dags_facebook_ads.py:35-107 | With the lambda as written and the source's two tasks in either order, the run makes exactly two reports, both FAILED: the first to finish counting 1, then the other counting 0. |
| DagsFacebookAds.TwoTaskScenarioAsWritten | dags/dags_facebook_ads.py:35-107 | The same scenario with the lambda as written: `campaign_insights`, whose callable returned, is FAILED with "pop from empty list". `ad_insights` is FAILED with its own exception text. The counts are 1 then 0. |

## Left out

- The Facebook Business SDK is not modelled. Session creation (`FacebookSession`, `FacebookAdsApi`) is reduced to a boolean `clientFails`. The two `api_get` calls and the JSON navigation `ad.get("creative", {}).get("id")` are reduced to two lookup functions. Those functions return the optional field or the exception, with an `ApiError`'s code and status already read. Either of those is `None` when reading it raised, as in the guarded block at lines 114-118.
- pandas is not modelled. The DataFrame is the sequence of `Row` records it is built from. The keys of each row dict become `Row` fields.
- The extractor's five progress prints (etl/extract_ad_creative.py lines 36-39, 45-48, 57-60, 74-78 and 169-172) are not modelled; `Extraction` records only the result and the calls.
- Message texts are not modelled. The wording of each `RuntimeError` is represented only by which message it is, plus the ids it names. The runner's prints are represented by `ReportLine` constructors, not their text. The exception chaining (`raise ... from e`) is not represented.
- `FnRaised` and `OtherError` stand for `Exception` subclasses only. Both `except Exception` handlers (etl/extract_ad_creative.py line 158, dags/dags_facebook_ads.py line 81) let a `BaseException` such as `SystemExit` or `KeyboardInterrupt` through. That ends the extraction without a classified error, and it aborts the completion loop with the remaining tasks unreported. The model does not represent these.
- The thread pool, `as_completed` and timing are not modelled. The completion order is a parameter: any permutation of the task names, each future yielded once. `max_workers` and the access-token, account and date arguments passed to each task are not represented.
- The process-wide `sys.stdout` redirection is not modelled. A task's `captured` string is an opaque parameter: the contents of its buffer, not necessarily what that task printed. `redirect_stdout` replaces `sys.stdout` for the whole process. So even with correctly paired enter and exit and the default two workers (dags/dags_facebook_ads.py line 19), prints can cross tasks. If task A enters, then B enters, A's prints land in B's buffer. If A then exits before B, B's later prints reach the console, and B's exit leaves `sys.stdout` on A's buffer. As written, the entered redirect is never restored at all (see Findings), so later prints go to a task buffer instead of the console. The model does not represent where the lines end up.
- `dags/_dags_campaign_insights.py`, `dags/_dags_ad_insights.py` and the other pipeline stages are not part of this model. Each task's callable is only a parameter.
- `sys.path` manipulation, the session timeout of 180 seconds and the environment are left out. They only affect I/O.
- PyStr.Strip: implements `str.isspace()` by its list of Unicode code points. It does not handle surrogates or other encodings, because Dafny strings are sequences of characters.
- DagsFacebookAds.Dag: models the runner with the corrected, properly scoped capture (`FutureScoped`). The as-written behaviour is stated separately by `FutureAsWritten` and `AsWrittenAlwaysFails`, and for the whole run by `DagAsWritten`.
- DagsFacebookAds.DagBanners: states each banner's status for the scoped capture only. As written every banner is FAILED, as `DagAsWritten` states.
- DagsFacebookAds.TwoTaskScenario: states the scoped capture, where `campaign_insights` is SUCCESS. As written it is FAILED with "pop from empty list", as `TwoTaskScenarioAsWritten` states.

## Findings

| source | as written | input that shows it | evidently intended | confidence | as-written member | corrected member |
|---|---|---|---|---|---|---|
| dags/dags_facebook_ads.py:55-66 | The lambda calls `__enter__` on one `redirect_stdout(buffer)` object and `__exit__` on a second, new one. The second was never entered, so its stack of saved streams is empty and its `__exit__` raises `IndexError("pop from empty list")`. `future.result()` therefore raises for every task, and every task is reported FAILED. | Any task whose callable returns normally, e.g. one that prints "extracted 3 rows" | Enter and exit one redirect scope around the callable, so a returning task is reported SUCCESS with its buffer's contents as output. The buffer is still not isolated from other tasks, because the redirect is process-wide (see Left out) | medium: follows from CPython's `redirect_stdout` implementation; not executed | DagsFacebookAds.FutureAsWritten (with AsWrittenAlwaysFails, AsWrittenReportsSuccessAsFailure) | DagsFacebookAds.FutureScoped (with ScopedStatusMatchesCallable; used by Dag) |
