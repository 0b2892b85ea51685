# job-search-agent, modelled in Dafny

A model of the core of job-search-agent, a Python tool that does the following:
- scrapes job listings from four Japanese job boards: doda (plain HTTP and a headless-browser variant), Indeed, Green, and Wantedly (plain HTTP and a browser variant);
- normalises the listings and fingerprints them;
- stores them in a deduplicating job table;
- scores every job against a user's search criteria.

The model covers five parts:

- **Job table and fingerprints** (`job_utils.dfy`, module `JobUtils`):
  - `normalize_text` and the fingerprint built on it;
  - the URL-then-fingerprint duplicate lookup;
  - the stale sweep, the fingerprint backfill and the statistics fold;
  - the job table is a class `JobStore` whose `rows: seq<Job>` the three bulk operations update in place.
- **Ingestion and orchestration** (`ingest.dfy`, `orchestrator.dfy`, `scrape_and_store.dfy`, `listing.dfy`):
  - the insert-or-refresh loop of both scripts and its added/duplicate/error accounting;
  - configuration merging;
  - the runner that produces one result per enabled scraper;
  - the commit-failure re-accounting;
  - source resolution.
- **Salary parsers** (`salary_scan.dfy`, `doda.dfy`, `doda_browser.dfy`, `indeed.dfy`, `green.dfy`):
  - the regular expressions are written out as scanners over characters (`SalaryScan.NumberAt`, `SalaryScan.AnnualAt`, `Green.RangeAt`);
  - the figure scanner is proved to find exactly what the figure pattern matches, and each search is proved to return the leftmost match;
  - each parser is a function from text to an optional `(min, max)` in yen.
- **Per-board field rules and page loops** (`doda.dfy`, `doda_browser.dfy`, `indeed.dfy`, `green.dfy`, `wantedly.dfy`, `wantedly_browser.dfy`, `paging.dfy`, `path_ids.dfy`):
  - job-id extraction, title clean-up and URL building;
  - Green's line finders and Wantedly's Apollo-state projects;
  - the pagination loops, each a method with a loop proved against a function of the pages it is given;
  - Wantedly's cross-page deduplication.
- **Match scorer** (`matcher.dfy`):
  - the 40/30/15/15 score;
  - the `match_all_for_user` upsert pass over a class `MatchStore` whose `scores` map stands for the `matched_jobs` table.

Shared definitions live in `text.dfy` (Python string operations), `counting.dfy` (counting, filtering and first-match over sequences) and `wrappers.dfy` (`Option`).

External effects become inputs:
- HTTP fetches and browser pages are given sequences of pages (functions from the page number or URL to an optional page);
- HTML parsing is given records of the strings BeautifulSoup would return;
- SHA-256, `urljoin` and `quote`/`urlencode` are function parameters;
- the clock is an integer `now`.


## Model

| member | source | states |
|---|---|---|
| JobUtils.DropCorpPrefix | src/models/job_utils.py:30 | removing a leading 株式会社 and the whitespace after it never lengthens the text, keeps it lower case, and leaves a text without that prefix unchanged |
| JobUtils.DropCorpSuffix | src/models/job_utils.py:31 | removing a trailing 株式会社 and the whitespace before it leaves a prefix of the text, and leaves a text without that suffix unchanged |
| JobUtils.NormalizeText | src/models/job_utils.py:13-36 | None or "" gives ""; any result is lower case, has no whitespace at either end and holds none of 【】[]（）()「」『』 |
| JobUtils.NormalizeBare | src/models/job_utils.py:20-36 | a name already lower case, trimmed, single-spaced, bracket-free and without a 株式会社 affix normalises to itself |
| JobUtils.NormalizeCorpAlone | src/models/job_utils.py:23-36 | 株式会社 on its own, with any whitespace around it, normalises to "" |
| JobUtils.NormalizeIgnoresCorpPrefix | src/models/job_utils.py:23-36 | 株式会社 followed by any run of whitespace and then a bare name normalises to the same text as the bare name |
| JobUtils.NormalizeIgnoresCorpSuffix | src/models/job_utils.py:23-36 | a bare name followed by any run of whitespace and then 株式会社 normalises to the same text as the bare name |
| Text.Lower | src/models/job_utils.py:23 | `str.lower()` keeps the length and leaves no upper-case letter, mapping character by character |
| Text.Strip | src/models/job_utils.py:23 | `str.strip()` leaves no whitespace at either end, only characters of its input, and keeps lower case; `StripPadded` pins down what it removes |
| Text.StripPadded | src/models/job_utils.py:23 | a text with no whitespace at its ends, padded on both sides with whitespace, strips back to exactly that text |
| Text.LowerAppend | src/models/job_utils.py:23 | `str.lower()` works piece by piece over a concatenation |
| Text.CollapseIsSingleSpaced | src/models/job_utils.py:26 | after `re.sub(r"\s+", " ", s)` every whitespace character is a single plain space, and the text starts with a space exactly when the input starts with whitespace |
| Text.CollapseSingleSpaced | src/models/job_utils.py:26 | collapsing a text that is already single-spaced changes nothing |
| Text.CollapseLast | src/models/job_utils.py:26 | collapsing ends in a space exactly when the text ends in whitespace |
| Text.CollapseAfterSingleSpaced | src/models/job_utils.py:26 | a single-spaced prefix that ends in a non-space passes through collapsing unchanged, and the rest is collapsed on its own |
| Text.CollapseLeadingRun | src/models/job_utils.py:26 | a run of whitespace before a non-space becomes exactly one space |
| Text.CollapseWords | src/models/job_utils.py:26 | two words with any run of whitespace between them collapse to the two words around one space |
| Text.CollapseLowerWords | src/models/job_utils.py:23-26 | two words around whitespace, lower-cased, stripped and collapsed, are the lower-cased words around one space |
| Text.RemoveChars | src/models/job_utils.py:34 | deleting a character class keeps exactly the other characters, in order; a text without them is unchanged |
| Text.RemoveCharsAppend | src/models/job_utils.py:34 | deleting characters works piece by piece over a concatenation |
| JobUtils.GenerateFingerprint | src/models/job_utils.py:39-56 | the fingerprint is 16 characters: the head of the digest of the normalised title, company and board |
| JobUtils.FingerprintDependsOnNormalForm | src/models/job_utils.py:50-56 | inputs equal after normalising title, company and board get equal fingerprints, whatever the hash |
| JobUtils.FingerprintIgnoresCorpPrefix | src/models/job_utils.py:30 | a company written with or without a leading 株式会社 gets the same fingerprint |
| JobUtils.FindDuplicate | src/models/job_utils.py:59-84 | a row with the URL whenever one exists; otherwise the first row with the fingerprint, and None exactly when no row has it |
| JobUtils.FindDuplicateByUrlUnique | src/models/job_utils.py:74-77 | with unique URLs, the URL lookup returns the one row carrying that URL |
| JobUtils.SweepTwiceCountsZero | src/models/job_utils.py:113-129 | after a sweep no row is stale, so a second sweep with the same cutoff changes 0 rows |
| JobUtils.SweepActiveCount | src/models/job_utils.py:113-129 | the sweep turns off exactly as many active rows as it reports |
| JobUtils.JobStore.MarkStaleInactive | src/models/job_utils.py:98-129 | exactly the rows that are active, on the board (when one is given), and last seen before `now - days` become inactive; nothing else changes; the count returned is the number of such rows |
| JobUtils.BackfillRow | src/models/job_utils.py:143-144 | a row ends up with a fingerprint; a row that had one is unchanged; no other field changes |
| JobUtils.Backfill | src/models/job_utils.py:141-144 | the backfill keeps the number of rows and treats each row on its own |
| JobUtils.BackfillLeavesNoNull | src/models/job_utils.py:141-147 | after the backfill no row has a null fingerprint |
| JobUtils.JobStore.BackfillFingerprints | src/models/job_utils.py:132-147 | the table becomes its backfill, and the count returned is the number of rows that had no fingerprint |
| JobUtils.BoardSplit | src/models/job_utils.py:162-175 | a board's active and inactive counts add up to its number of rows |
| JobUtils.BoardTableCounts | src/models/job_utils.py:162-175 | the per-board table has one entry per board present, holding that board's active and inactive row counts |
| JobUtils.JobStore.GetJobStats | src/models/job_utils.py:150-182 | total is the number of rows and equals active + inactive; active is the number of active rows; the per-board table is the fold that `BoardTableCounts` characterises |
| Matcher.NormalizeForMatch | src/matching/matcher.py:73-78 | None or "" gives ""; the result is lower case, no longer than the input, and has no whitespace at either end |
| Matcher.NormalizeForMatchShape | src/matching/matcher.py:73-78 | the normal form is single-spaced: all its whitespace is lone plain spaces |
| Matcher.NormalizeForMatchPadded | src/matching/matcher.py:73-78 | a text already in normal form, padded with whitespace on both sides, normalises to exactly itself |
| Matcher.NormalizeForMatchWords | src/matching/matcher.py:73-78 | two words with any run of whitespace between them normalise to the lower-cased words around one space |
| Matcher.KeywordMatches | src/matching/matcher.py:80-101 | the keywords (in input order, by `KeywordMatchesInOrder`) whose non-empty normal form occurs in the text's normal form, and no others; [] when the text or the keywords are empty |
| Matcher.KeywordMatchesInOrder | src/matching/matcher.py:93-101 | the matches keep the keywords' order: the matches of a concatenation are those of each part, one after the other, and a single keyword gives itself exactly when it hits |
| Matcher.KeywordFindsItself | src/matching/matcher.py:93-99 | a keyword with a non-empty normal form is found in a text that is the keyword itself |
| Matcher.MatchesNonEmpty | src/matching/matcher.py:96-101 | some keyword matches exactly when some keyword hits the text |
| Matcher.LocationMatch | src/matching/matcher.py:103-123 | the first preferred location whose non-empty normal form occurs in the job's location; None exactly when no location does |
| Matcher.Or | src/matching/matcher.py:152-155 | Python's `a or b`: `a` when it is truthy (neither None nor 0), else `b` |
| Matcher.SalaryInRange | src/matching/matcher.py:125-158 | False when the job has neither bound; True when it has one and the user has neither |
| Matcher.SalaryOverlap | src/matching/matcher.py:151-158 | with no bound equal to 0, the answer is interval overlap: a single job bound stands for both ends, a missing user minimum is 0, and a missing user maximum is unbounded |
| Matcher.SalaryTypeError | src/matching/matcher.py:152-158 | the comparison raises exactly when the user gives a bound and the job's only bound is 0 (as its maximum, only when the user's maximum is not negative) |
| Matcher.ScaledBounds | src/matching/matcher.py:187-188 | `int(n / d * w)` with n ≤ d is at most w, and equals w exactly when n = d |
| Matcher.MatchJobToUser | src/matching/matcher.py:160-231 | the salary test is always made: the score exists exactly when it does not raise, and the score is the sum of the four components |
| Matcher.UniqueDescriptionBound | src/matching/matcher.py:192-197 | description matches outside the title number at most the keywords left after the title |
| Matcher.MatchScoreBounds | src/matching/matcher.py:182-229 | title ≤ 40, description ≤ 30, location ∈ {0, 15}, salary ∈ {0, 15}, and the total lies in [0, 100] |
| Matcher.ComponentBounds | src/matching/matcher.py:187-203 | the title and description components stay within 40 and 30 |
| Matcher.MatchDisjoint | src/matching/matcher.py:194 | no keyword is counted in both the title and the description |
| Matcher.FullTitleScore | src/matching/matcher.py:187-188 | with keywords, the title score is 40 exactly when every keyword hits the title |
| Matcher.AllKeywordsInTitle | src/matching/matcher.py:197-203 | when every keyword hits the title, the description earns 30 when some keyword hits the description and 0 otherwise |
| Matcher.EmptyCriteriaScores | src/matching/matcher.py:173-210 | no keywords give title and description 0, no locations give location 0 |
| Matcher.LocationAndSalaryScores | src/matching/matcher.py:205-221 | location earns 15 exactly when some location hits, salary 15 exactly when the ranges overlap |
| Matcher.JobScore | src/matching/matcher.py:276 | a job is scored exactly when `match_job_to_user` does not raise |
| Matcher.LatestCriteria | src/matching/matcher.py:253-262 | the user's criteria row with the greatest `updated_at`; None exactly when the user has none |
| Matcher.MatchLoopCounts | src/matching/matcher.py:275-311 | each job adds one to matched or below-threshold, and each match adds one to new or existing |
| Matcher.MatchSummaryIdentities | src/matching/matcher.py:271-311 | `jobs_matched + jobs_below_threshold == total_jobs` and `new_matches + existing_matches == jobs_matched` |
| Matcher.MatchLoopRaised | src/matching/matcher.py:326-329 | once a job's scoring raises, the pass fails |
| Matcher.MatchLoopCompletes | src/matching/matcher.py:275-311 | the pass completes exactly when no job's scoring raises |
| Matcher.MatchLoopKeepsOthers | src/matching/matcher.py:278-311 | a (user, job) pair that the pass does not touch keeps its row, or its absence |
| Matcher.MatchLoopKeepsRows | src/matching/matcher.py:278-311 | no matched-job row is deleted |
| Matcher.MatchLoopWrites | src/matching/matcher.py:278-311 | with unique job ids, every job at or above the threshold ends with its row holding its score, updated in place or added, and every job below it leaves its row as it was |
| Matcher.MatchStore.MatchAllForUser | src/matching/matcher.py:233-331 | a missing user or missing criteria gives the all-zero summary and no change; a raising score rolls back; otherwise the summary and table are those of the loop |
| Orchestrator.Pick | scripts/scrape_all_boards.py:137-152 | a setting comes from the scraper's own section when present, else from the global section, else the default |
| Orchestrator.GetScraperConfig | scripts/scrape_all_boards.py:128-154 | each of keywords, location, max_pages and delay_range is the scraper's own value if present, else the global one, else the default (デザイナー, 東京, 2, [2.0, 3.0]) |
| Orchestrator.EmptyConfigGivesDefaults | scripts/scrape_all_boards.py:133-142 | an empty configuration yields the built-in defaults |
| Orchestrator.NoSectionFollowsGlobal | scripts/scrape_all_boards.py:133-154 | a scraper without its own section runs with the global settings, defaulted where absent |
| Orchestrator.FailedResult | scripts/scrape_all_boards.py:250-258 | an exception gives `success=False`, every count 0 and the exception's message |
| Orchestrator.SuccessfulPlusFailed | scripts/scrape_all_boards.py:119-125 | `successful_scrapers + failed_scrapers == len(results)` |
| Orchestrator.TotalsBalanced | scripts/scrape_all_boards.py:103-117 | when every result is balanced, total added + duplicates + errors equals total scraped |
| Orchestrator.TotalsAppend | scripts/scrape_all_boards.py:103-125 | each total is a sum: appending a result adds its counters |
| Ingest.NextId | src/models/database.py:74 | a new row's primary key is above every key in use |
| Ingest.Refresh | scripts/scrape_all_boards.py:207-209 | a refreshed row is seen now and active, with nothing else changed |
| Ingest.Step | scripts/scrape_all_boards.py:194-231 | one job increments exactly one of added, duplicates and errors, adds at most one row, and never clears the broken flag; `ErrorChangesNothing`, `DuplicateRefreshes`, `NewJobAppended` and `NullColumnBreaks` give each path's new batch |
| Ingest.ErrorChangesNothing | scripts/scrape_all_boards.py:194-230 | a rejected job, or any job once the batch is broken, counts as one error and leaves the rows and the flag alone |
| Ingest.NewJobAppended | scripts/scrape_all_boards.py:212-226 | a new job with title, company and URL appends one row (its fields, fingerprint, last-seen time, active flag and a key above every key in use) and counts as added |
| Ingest.NullColumnBreaks | scripts/scrape_all_boards.py:212-231 | a new job lacking title, company or URL is counted as added but adds no row and breaks the batch, so its commit fails |
| Ingest.StepAllCounts | scripts/scrape_all_boards.py:194-231 | over a batch, added + duplicates + errors grows by the number of jobs |
| Ingest.DuplicateRefreshes | scripts/scrape_all_boards.py:203-211 | a job matching a row by URL or fingerprint refreshes that row only, counts as a duplicate, and adds no row |
| Ingest.StepKeepsUniqueUrls | scripts/scrape_all_boards.py:203-226 | a job is inserted only when no row has its URL, so URLs stay unique |
| Ingest.StepKeepsUniqueIds | scripts/scrape_all_boards.py:213-226 | inserting or refreshing keeps primary keys unique |
| Ingest.StepAllKeepsUnique | scripts/scrape_all_boards.py:194-231 | a whole batch keeps URLs and keys unique |
| Ingest.StepAllKeepsRows | scripts/scrape_all_boards.py:194-231 | no row is removed; every existing row keeps its key and URL in place |
| Ingest.StoreBatch | scripts/scrape_all_boards.py:187-237 | the loop over the session computes the batch that `StepAll` describes, and its three counters add up to the number of jobs |
| Orchestrator.RunScraperBalanced | scripts/scrape_all_boards.py:157-258 | every result is balanced and named after its scraper; it succeeds exactly when it has no error message; a success reports every scraped job |
| Orchestrator.RunScraperTable | scripts/scrape_all_boards.py:174-258 | a failed run leaves the table as it was; every run keeps URLs and keys unique |
| Orchestrator.RunScraper | scripts/scrape_all_boards.py:157-258 | the result and the new table are those of the run's specification, with the search outcome and the commit outcome as inputs |
| Orchestrator.EnabledScrapers | scripts/scrape_all_boards.py:266-271 | exactly the registered scrapers whose section does not say `enabled: false` |
| Orchestrator.RunAllResults | scripts/scrape_all_boards.py:307-311 | one result per scraper run, named after it, in order, each balanced |
| Orchestrator.RunAllScrapers | scripts/scrape_all_boards.py:261-314 | the sequential loop produces the results and table that running the enabled scrapers one after another produces; none enabled gives an empty result |
| Orchestrator.RunAllTotals | scripts/scrape_all_boards.py:103-125 | a whole run has one result per enabled scraper, balanced totals, and successful + failed = results |
| Orchestrator.ApplyOnly | scripts/scrape_all_boards.py:413-417 | `--only` leaves the global section alone |
| Orchestrator.DisableAllBut | scripts/scrape_all_boards.py:414-417 | every registered scraper not listed is disabled; listed ones keep their state; settings are kept |
| Orchestrator.OnlyRunsListed | scripts/scrape_all_boards.py:414-417 | after `--only`, exactly the listed scrapers that were enabled run |
| Orchestrator.ExitStatus | scripts/scrape_all_boards.py:429 | the exit status is 1 exactly when some scraper failed, else 0 |
| ScrapeAndStore.StoreStepCounts | scripts/scrape_and_store.py:97-137 | a job whose None title reaches the debug line counts once as added or duplicate and once more as an error; every other job counts as in `run_scraper`'s loop |
| ScrapeAndStore.StoreAllIsStepAll | scripts/scrape_and_store.py:97-137 | the loop changes the rows, the added and duplicate counters and the session exactly as `run_scraper`'s loop does; its errors are at least that loop's and at most that plus the number of jobs without a title |
| ScrapeAndStore.StoreJobsBalanced | scripts/scrape_and_store.py:94-149 | `total_scraped == len(jobs)`; `new_jobs + duplicates + errors` is at least `total_scraped` and at most `total_scraped` plus the jobs without a title, and equals `total_scraped` when every title is present, whether the commit succeeds or fails |
| ScrapeAndStore.NullTitleCountsTwice | scripts/scrape_and_store.py:109-147 | one job with a None title stored into an empty table reports no new job, no duplicate and two errors: the debug line's TypeError and the failed commit |
| ScrapeAndStore.StoreJobsCommitFailure | scripts/scrape_and_store.py:140-147 | a failed commit reports no new job, moves the would-be new jobs to errors, keeps the duplicates, and leaves the table as it was |
| ScrapeAndStore.StoreOne | scripts/scrape_and_store.py:98-137 | one iteration of the loop, including the debug line's error, computes `StoreStep` |
| ScrapeAndStore.StoreLoop | scripts/scrape_and_store.py:97-137 | the loop computes `StoreAll` over the jobs |
| ScrapeAndStore.StoreJobs | scripts/scrape_and_store.py:81-149 | the statistics and the new table are those of the loop of `store_jobs` (the insert-or-refresh step plus the debug line's error) followed by the commit or the rollback |
| ScrapeAndStore.ScrapeFailed | scripts/scrape_and_store.py:197-199 | a scrape that raises gives `errors=1` and every other count 0 |
| ScrapeAndStore.ScrapeSource | scripts/scrape_and_store.py:152-199 | the statistics are those of storing the scraped jobs, or the one-error fallback when the scrape raised |
| ScrapeAndStore.AggregateStats.Add | scripts/scrape_and_store.py:61-78 | `add` appends the statistics, and each total grows by that source's count |
| ScrapeAndStore.Resolve | scripts/scrape_and_store.py:221-223 | "all" anywhere in the request means every registered source; otherwise the request as given |
| ScrapeAndStore.ScrapeAllSources | scripts/scrape_and_store.py:241-253 | one statistics entry per source, in the order given |
| ScrapeAndStore.ScrapeAllTotals | scripts/scrape_and_store.py:241-253 | the totals count every scraped job, plus one error per source whose scrape raised, plus at most one error per job without a title; exactly so when every title is present |
| ScrapeAndStore.ScrapeEach | scripts/scrape_and_store.py:241-253 | the loop adds each source's statistics to the aggregate and stores its jobs, in order |
| ScrapeAndStore.ScrapeAndStore | scripts/scrape_and_store.py:202-253 | an unknown source, or a local file with several sources, gives an empty aggregate and no change to the table; otherwise every resolved source is scraped and stored in order |
| SalaryScan.DigitRunEnd | src/scrapers/doda.py:22 | `\d+` taken greedily: the run of digits from a position ends at the first non-digit |
| SalaryScan.GroupChainEnd | src/scrapers/doda.py:22 | `(?:,\d{3})*` taken greedily: the longest chain of comma-and-three-digit groups |
| SalaryScan.UnitAt | src/scrapers/doda.py:22 | the unit after a figure: 万円 (length 2), or for Indeed's `万?円` also a bare 円 (length 1) |
| SalaryScan.NumberAt | src/scrapers/doda.py:22 | a match of `(\d{1,3}(?:,\d{3})*\|\d+)` plus the unit starting exactly at a position: its figure, which starts with a digit and is followed by the unit |
| SalaryScan.NumberAtSound | src/scrapers/doda.py:22 | every figure the scanner finds is a string the number pattern matches |
| SalaryScan.NumberAtComplete | src/scrapers/doda.py:22 | no match is missed: a string the number pattern matches, followed by the unit, is found whole |
| SalaryScan.ScanSkip | src/scrapers/doda.py:94-103 | `findall` with no match at a position goes on from the next position |
| SalaryScan.ScanTake | src/scrapers/doda.py:94-103 | `findall` with a match at a position takes its figure and resumes after the match |
| SalaryScan.ScanEmpty | src/scrapers/doda.py:105-106 | `findall` finds nothing exactly when no position starts a match |
| SalaryScan.FindNumbers | src/scrapers/doda.py:100-103 | `SALARY_PATTERN.findall`: every figure it returns is a well-formed numeral |
| SalaryScan.FindNumbersTake | src/scrapers/doda.py:100-103 | `SALARY_PATTERN.findall` takes a figure and resumes after its unit |
| SalaryScan.FindNumbersEmpty | src/scrapers/doda.py:100-106 | `SALARY_PATTERN.findall` is empty exactly when no position starts an `N万円` |
| SalaryScan.AnnualAt | src/scrapers/doda.py:24 | `(?:年収\|予定年収)[＞>]?` plus figure plus 万円 at a position: the figure, which is a number-pattern match followed by 万円 after the marker |
| SalaryScan.FindAnnual | src/scrapers/doda.py:94-97 | `ANNUAL_SALARY_PATTERN.findall`: every figure it returns is a well-formed numeral |
| SalaryScan.FindAnnualTake | src/scrapers/doda.py:94-97 | `ANNUAL_SALARY_PATTERN.findall` takes the figure and resumes after its 万円 |
| SalaryScan.FindAnnualEmpty | src/scrapers/doda.py:97-99 | the annual search is empty exactly when no position starts an annual match |
| SalaryScan.NoAnnualMarkerFrom | src/scrapers/doda.py:24 | a text without 年 or 予 has no annual figure |
| SalaryScan.NumeralValueOf | src/scrapers/doda.py:112 | `int(match.replace(",", ""))` is the decimal value of the figure's digits |
| SalaryScan.Values | src/scrapers/doda.py:109-115 | each figure is converted in order; none is dropped, because every figure is a valid integer once its commas are gone |
| SalaryScan.Annualise | src/scrapers/doda.py:123-124 | amounts below 2,500,000 are multiplied by 12, others are kept |
| SalaryScan.Range | src/scrapers/doda.py:127-130 | `(min(amounts), max(amounts))`: both are among the amounts, bound all of them, and min ≤ max |
| Doda.SalaryFigures | src/scrapers/doda.py:88-103 | the figures read: only 年収/予定年収-tagged ones when a marker of each kind occurs; those, or failing them any `N万円`, when only the annual kind occurs; any `N万円` otherwise |
| Doda.Amounts | src/scrapers/doda.py:108-124 | one amount per figure: its value × 10000, and × 12 when the text is monthly but not annual and the amount is below 2,500,000 |
| Doda.ParseSalary | src/scrapers/doda.py:70-130 | None for a missing or empty text and exactly when no figure is found; otherwise the least and greatest amount, min ≤ max |
| Doda.NoFigureNoSalary | src/scrapers/doda.py:99-106 | a text with no `N万円` anywhere has no salary, whatever its markers |
| Doda.AnnualExample | src/scrapers/doda.py:93-103 | "年収460万円～580万円" gives (4600000, 4600000): only the tagged figure counts |
| Doda.MonthlyExample | src/scrapers/doda.py:120-124 | "月給25万円～30万円" gives (3000000, 3600000) |
| Doda.JobIdFrom | src/scrapers/doda.py:18 | the leftmost match of `/j_jid__(\d+)/` from a position, with no match before it |
| Doda.ExtractJobId | src/scrapers/doda.py:58-68 | the non-empty digit run of the leftmost `/j_jid__digits/`, with no match starting before it; None exactly when the URL has no such match |
| Doda.JobIdOfDetailPath | src/scrapers/doda.py:18 | a path `/j_jid__N/...` gives back N |
| Doda.TitleWithoutCompany | src/scrapers/doda.py:188-191 | the raw title is kept unless it starts with the (non-empty) company name; then the rest is stripped |
| Doda.CompanyPrefixRemoved | src/scrapers/doda.py:189-191 | a title written after the company name and whitespace comes back exactly |
| Doda.ParseArticle | src/scrapers/doda.py:161-224 | no detail link or no job id drops the article; otherwise the absolute URL, its job id, the cleaned title, the article's company, location, salary text and body, and the bounds of `ParseSalary` of the salary text |
| Doda.ParseJob | src/scrapers/doda.py:176-196 | an article is kept exactly when it has a detail link whose URL, made absolute with `urljoin`, holds a job id |
| Doda.NextPageUrl | src/scrapers/doda.py:226-241 | the next URL exists exactly when the "次" link has a non-empty href; an absolute href is kept |
| Doda.ParsePage | src/scrapers/doda.py:243-267 | every article that parses is kept, none other (`ParsePageOnlyParsed`), in article order (`ParsePageInOrder`); the next URL is given exactly when there is a non-empty href |
| Doda.ParsePageOnlyParsed | src/scrapers/doda.py:259-262 | every job on the page is the parse of one of its articles |
| Doda.ParsePageInOrder | src/scrapers/doda.py:259-262 | the jobs of a page are its articles' parses in article order: concatenated pages give concatenated jobs, one article gives its parse or nothing |
| Doda.SearchParams | src/scrapers/doda.py:46-54 | seven parameters, the first `k`, the search terms joined by spaces, then the six fixed flags |
| Doda.LocationIsKeyword | src/scrapers/doda.py:42-47 | a location is searched as one more keyword after a space |
| Doda.BuildSearchUrl | src/scrapers/doda.py:30-56 | the search URL followed by "?" and the encoded query |
| Doda.Search | src/scrapers/doda.py:269-310 | the jobs are those of the page loop from the search URL, over at most `max_pages` pages, in page order |
| Paging.Trace | src/scrapers/doda.py:288-307 | the rounds of the page loop from a URL: never more than the pages allowed |
| Paging.TraceShape | src/scrapers/doda.py:288-307 | the loop starts at the first URL; each round fetches the previous page's next link; it stops early only after a failed fetch or a page with no next link |
| Paging.AllJobsAppend | src/scrapers/doda.py:297 | `all_jobs.extend(jobs)` keeps the pages' jobs in page order |
| Paging.PageJobsInOrder | src/scrapers/doda.py:297 | a page's jobs appear in the result right after those of the pages before it |
| Paging.Search | src/scrapers/doda.py:282-310 | the loop runs the rounds the page-trace function describes, at most `max_pages` of them, and returns their jobs in order |
| DodaBrowser.AbsoluteUrl | src/scrapers/doda_browser.py:138-140 | an absolute URL is kept; any other becomes `https://doda.jp` followed by the path, with a "/" between only when the path lacks one, so the result is always absolute |
| DodaBrowser.AbsoluteUrlIdempotent | src/scrapers/doda_browser.py:139-140 | completing an already completed URL changes nothing |
| DodaBrowser.NextUrl | src/scrapers/doda_browser.py:189-194 | a next URL exists exactly when the "次" link has a non-empty href; it ends with that href and is absolute |
| DodaBrowser.NextUrlAddsNoSlash | src/scrapers/doda_browser.py:140-194 | for a relative href without a leading "/", the next-page URL and the detail URL differ: the former glues the href to the host name |
| DodaBrowser.ParseJob | src/scrapers/doda_browser.py:128-173 | an article is kept exactly when it has a detail link whose completed URL holds a job id; the URL is absolute, the title loses the company prefix, company, location, salary text and body are the article's, and the bounds are those of doda's `ParseSalary` |
| DodaBrowser.Search | src/scrapers/doda_browser.py:253-282 | each round parses the shown articles; a timeout ends the loop, a visible "次" leads to the next view; at most `max_pages` views, jobs in order |
| Indeed.SalaryFigures | src/scrapers/indeed.py:19-56 | the figures `(\d{1,3}(?:,\d{3})*\|\d+)万?円` finds are all well-formed numerals, and there are none exactly when no position starts a match |
| Indeed.ToYen | src/scrapers/indeed.py:64-68 | a value below 1000 is read as 万円 and multiplied by 10000; a larger one is yen already; never smaller than the value |
| Indeed.Amounts | src/scrapers/indeed.py:60-83 | one amount per figure, in order: its value in yen, times 12 when below 2,500,000 in a text marked 月給/月収 but not 年収/年俸 |
| Indeed.ParseSalary | src/scrapers/indeed.py:43-85 | None for a missing or empty text and exactly when no figure is found; otherwise the least and greatest amount, both among the amounts, min ≤ max |
| Indeed.MonthlyExample | src/scrapers/indeed.py:47 | "月給 30万円 ~ 43万円" gives (3600000, 5160000) |
| Indeed.YenExample | src/scrapers/indeed.py:18 | "380,000円" is kept in yen: (380000, 380000) |
| Indeed.LeadingAmountMatches | src/scrapers/indeed.py:103 | the scanner for `^[\d,]+万?円` agrees with the pattern in both directions |
| Indeed.ExtractSalaryText | src/scrapers/indeed.py:87-105 | the first div text, in document order, shorter than 100 characters that starts with 月給, 年収 or 年俸 or with an amount; None exactly when no div text qualifies |
| Indeed.Description | src/scrapers/indeed.py:145-154 | the snippet's text, else the shelf's; the whole card's text when that is empty or neither exists |
| Indeed.DetailUrl | src/scrapers/indeed.py:129-131 | an empty or absolute href is kept; any other goes through `urljoin` with the base URL |
| Indeed.ParseJob | src/scrapers/indeed.py:107-171 | a card is dropped exactly when it has no title link or an empty `data-jk`; otherwise id, title and URL come from the link, the salary text is the extracted one and the bounds are `ParseSalary` of it (present exactly when it holds a figure, min ≤ max), and company, location and description are the card's |
| Indeed.NextPageUrl | src/scrapers/indeed.py:173-199 | the non-empty `pagination-page-next` href first; otherwise the first pagination link labelled 次 with a non-empty href; None exactly when neither exists |
| Indeed.ParsePage | src/scrapers/indeed.py:201-225 | every card that parses is kept, none other (`ParsePageOnlyParsed`), in card order (`ParsePageInOrder`); all carry a job id; the next URL is `NextPageUrl`'s |
| Indeed.ParsePageOnlyParsed | src/scrapers/indeed.py:218-221 | every job on the page is the parse of one of its cards |
| Indeed.ParsePageInOrder | src/scrapers/indeed.py:218-221 | the jobs of a page are its cards' parses in card order: concatenated pages give concatenated jobs, one card gives its parse or nothing |
| Indeed.SearchParams | src/scrapers/indeed.py:35-39 | `q` is the keywords joined by spaces; `l` is added exactly when a non-empty location is given |
| Indeed.BuildSearchUrl | src/scrapers/indeed.py:25-41 | the search URL, "?", then the encoded query |
| Indeed.Search | src/scrapers/indeed.py:227-268 | the page loop from the search URL: at most `max_pages` pages, stopping on a failed fetch or a missing next link, jobs in page order |
| Green.FigureAt | src/scrapers/green.py:19-20 | `(\d{3,})` at a position, taken greedily: at least three digits, ending at the first non-digit; present whenever three digits start there |
| Green.ManAfter | src/scrapers/green.py:19 | `\s*万` after a figure: only whitespace before the 万 |
| Green.SeparatorAfter | src/scrapers/green.py:19 | `円?\s*[〜~～ー－-]\s*`: a separator character lies between the first figure's unit and the second figure |
| Green.RangeAt | src/scrapers/green.py:19 | `SALARY_PATTERN` matched at a position: two digit runs in order, the first starting there |
| Green.SingleAt | src/scrapers/green.py:20 | `SALARY_SINGLE_PATTERN` matched at a position: a figure of three or more digits, then optional whitespace and 万円 |
| Green.FindRange | src/scrapers/green.py:58 | `SALARY_PATTERN.search`: the leftmost position where a range matches; None exactly when no position does |
| Green.FindSingle | src/scrapers/green.py:65 | `SALARY_SINGLE_PATTERN.search`: the leftmost single-figure match; None exactly when there is none |
| Green.Yen | src/scrapers/green.py:60-67 | `int(group) * 10000`: a whole number of 万円 in yen |
| Green.ParseSalary | src/scrapers/green.py:43-70 | None for a missing or empty text and exactly when neither pattern matches; a single figure gives equal ends; all amounts are whole 万円; `RangeLeftmost` and `SingleLeftmost` give the values |
| Green.RangeNeedsSeparator | src/scrapers/green.py:19 | a text without any separator character has no range |
| Green.RangeHasSeparator | src/scrapers/green.py:19 | every range found has a separator character between its two figures |
| Green.RangeFirst | src/scrapers/green.py:57-62 | a range at the start of the text gives its two figures in yen |
| Green.RangeLeftmost | src/scrapers/green.py:57-62 | the leftmost range, wherever it starts, gives its first and second figures in yen, in the order written |
| Green.SingleLeftmost | src/scrapers/green.py:64-68 | with no range anywhere, the leftmost single figure gives both ends in yen |
| Green.RangeOfLayout | src/scrapers/green.py:57-62 | a text that starts `N万〜M…` gives (N×10000, M×10000) |
| Green.SingleOfLayout | src/scrapers/green.py:64-68 | a text with no separator that starts `N万円` gives (N×10000, N×10000) |
| Green.RangeExample | src/scrapers/green.py:46 | "400万円〜600万円" gives (4000000, 6000000) |
| Green.DescendingRangeExample | src/scrapers/green.py:60-62 | "600万円〜400万円" gives (6000000, 4000000): the ends are not put in order, so min can exceed max |
| Green.SingleExample | src/scrapers/green.py:64-68 | "400万円" gives (4000000, 4000000) |
| Green.ExtractTextLines | src/scrapers/green.py:109-120 | every line is non-empty and stripped; `LinesInOrder` gives the lines of a text piece by piece |
| Green.LinesArePieces | src/scrapers/green.py:118-119 | every line is the stripped form of a newline-separated piece of the text |
| Green.LinesHaveNoNewline | src/scrapers/green.py:118-119 | no line holds a newline |
| Green.PiecesAreLines | src/scrapers/green.py:118-119 | no non-blank piece is lost: its stripped form is among the lines |
| Green.LinesInOrder | src/scrapers/green.py:118-119 | the lines of `first\nrest` are the stripped first piece (when not blank) followed by the lines of the rest, in order |
| Green.FindCompany | src/scrapers/green.py:122-140 | the first of the first five lines that is not short, a badge, a count or a year and names a company or is longer than five characters; else the first line; None exactly when there are no lines |
| Green.CompanyNeverSkipped | src/scrapers/green.py:127-140 | when no early line qualifies, the first line is returned even if it is a badge or a count |
| Green.LongestIndex | src/scrapers/green.py:157-158 | `max(lines, key=len)`: a longest line, the first of them |
| Green.FindTitle | src/scrapers/green.py:142-159 | the first line of at least 15 characters holding a job keyword; else the first longest line; None exactly when there are no lines |
| Green.FindLocation | src/scrapers/green.py:161-167 | the first line shorter than 50 characters that holds a location marker; None exactly when no line does |
| Green.FindSalary | src/scrapers/green.py:169-174 | the first line holding 万円 or 万〜; None exactly when no line does |
| Green.Absolute | src/scrapers/green.py:191-193 | an absolute URL is kept; any other goes through `urljoin` with the base URL |
| Green.ParseJob | src/scrapers/green.py:176-229 | a card is dropped exactly when it has no job link or its absolute URL holds no `/job/N`; otherwise the id is that N, the fields come from the card's lines, and the bounds are `ParseSalary` of the salary line |
| Green.NextPageUrl | src/scrapers/green.py:231-249 | the first link whose href contains `page=` and the next page's number, made absolute; None exactly when no href does |
| Green.PageMarkerMatchesLongerNumber | src/scrapers/green.py:244 | the number is matched as a substring, so `page=10` also counts as a link to page 1 |
| Green.ParsePage | src/scrapers/green.py:251-276 | every card that parses is kept, none other (`ParsePageOnlyParsed`), in card order (`ParsePageInOrder`); the next URL is the link to the page after the current one |
| Green.ParsePageOnlyParsed | src/scrapers/green.py:267-270 | every job on the page is the parse of one of its cards |
| Green.ParsePageInOrder | src/scrapers/green.py:267-270 | the jobs of a page are its cards' parses in card order: concatenated pages give concatenated jobs, one card gives its parse or nothing |
| Green.BuildSearchUrl | src/scrapers/green.py:26-41 | the search URL, "?", then the `keyword` parameter: the keywords joined by spaces, with the location appended after a space when one is given |
| Green.LoadNext | src/scrapers/green.py:300-305 | a round yields a page exactly when its fetch succeeds, and then looks for the link to the next page |
| Green.Search | src/scrapers/green.py:278-319 | the page loop from the search URL, at most `max_pages` pages, jobs in page order |
| Green.SearchRoundsArePages | src/scrapers/green.py:297-316 | every round but the last fetched a page and moved on to its link to page `i + 1` |
| Wantedly.Occupation | src/scrapers/wantedly.py:37-54 | the slug of the first keyword found in the occupation map; None exactly when no keyword is in it |
| Wantedly.CategoryUrl | src/scrapers/wantedly.py:56-60 | the projects URL, with an `occupation_types` query exactly when an occupation was found |
| Wantedly.BuildSearchUrl | src/scrapers/wantedly.py:22-67 | the category URL for page 1 and below; after it, for a later page, `page=N` joined with "&" or "?" as the URL already has a query or not; the location plays no part |
| Wantedly.PagedUrlsDiffer | src/scrapers/wantedly.py:63-65 | different page numbers after the same URL give different URLs |
| Wantedly.SearchUrlPagesDiffer | src/scrapers/wantedly.py:258-259 | pages 1 and later never share a URL, so each round fetches a new page |
| Wantedly.Get | src/scrapers/wantedly.py:107-124 | `dict.get`: the value stored under the key, None exactly when the key is absent |
| Wantedly.ScalarText | src/scrapers/wantedly.py:133 | `str()` of a scalar: a string is itself, an integer its decimal text, a boolean "True" or "False", null "None"; arrays and objects have no text here |
| Wantedly.TextField | src/scrapers/wantedly.py:111-124 | `d.get(key, default)`: the default when the key is missing, None for JSON null, and the stored string whenever a string is stored |
| Wantedly.CompanyKey | src/scrapers/wantedly.py:114-119 | a key exists exactly when `company` is a non-empty object whose `id` is truthy and scalar, and it is `"Company:" + str(id)` |
| Wantedly.CompanyOf | src/scrapers/wantedly.py:114-121 | "" without a company reference or state entry; the entry's `name` (default "") when it is an object; an exception that drops the project exactly when the entry is not an object |
| Wantedly.DescriptionOf | src/scrapers/wantedly.py:127 | `excerpt or description`: the excerpt's string when the excerpt is truthy, otherwise the description's string; "" for a missing or non-string value |
| Wantedly.ParseProject | src/scrapers/wantedly.py:103-147 | only `Project:` entries that are objects with a truthy id give a job, dropped when reading the company raises; the job's id is the project id, its URL `/projects/<id>`, it has no salary, and title, company and location come from the entry |
| Wantedly.ParseApolloProjects | src/scrapers/wantedly.py:92-149 | the pass over the state's entries in order gives one job per accepted entry |
| Wantedly.ApolloJobsAreProjects | src/scrapers/wantedly.py:103-143 | every job is an accepted project entry's, with URL `/projects/<id>`, and every accepted entry gives its job |
| Wantedly.IdsSnoc | src/scrapers/wantedly.py:177-179 | adding a job with a new id keeps the ids distinct |
| Wantedly.DistinctIdsCount | src/scrapers/wantedly.py:280-282 | jobs with distinct ids have as many ids as jobs |
| Wantedly.ScanLinks | src/scrapers/wantedly.py:167-212 | the jobs kept have distinct ids, all marked as seen, with no salary |
| Wantedly.ScanLinksStep | src/scrapers/wantedly.py:172-197 | one more link: passed over without an id or with a seen one; marked seen; a job only when its title is accepted |
| Wantedly.ScanSeesAllIds | src/scrapers/wantedly.py:176-179 | the ids marked as seen are exactly the ids of the links |
| Wantedly.FirstLinkAt | src/scrapers/wantedly.py:177-179 | the first link carrying an id; None exactly when no link carries it |
| Wantedly.ScanKeepsFirstLinks | src/scrapers/wantedly.py:177-184 | an id gives a job exactly when its first link's title is accepted: a rejected first link uses the id up |
| Wantedly.FallbackTitle | src/scrapers/wantedly.py:182-199 | the link text is kept exactly when it has at least five characters, cut to its first 200 |
| Wantedly.QueryDropped | src/scrapers/wantedly.py:195 | `href.split("?")[0]` holds no "?" and is where the href starts |
| Wantedly.ParseHtmlFallback | src/scrapers/wantedly.py:151-214 | the link scan with the fallback's title and URL rules |
| Wantedly.Dedup | src/scrapers/wantedly.py:277-284 | the first job of each id in order: distinct ids, the same ids as the input, no new jobs |
| Wantedly.DedupSnoc | src/scrapers/wantedly.py:279-282 | one more job is kept exactly when its id is new |
| Wantedly.DedupDistinct | src/scrapers/wantedly.py:277-284 | jobs with distinct ids are left as they are |
| Wantedly.DedupExtends | src/scrapers/wantedly.py:284 | later pages only add to the end of what was kept |
| Wantedly.AddNew | src/scrapers/wantedly.py:277-284 | the page's jobs with unseen ids, in order, so the jobs so far stay the deduplicated stream; the seen set stays their ids |
| Wantedly.ParsePage | src/scrapers/wantedly.py:267-275 | the Apollo state's jobs when the page has a state, otherwise the link fallback's |
| Wantedly.RoundsFromPages | src/scrapers/wantedly.py:258-292 | every job found comes from a page the loop loaded, numbered at most `max_pages` |
| Wantedly.NextTextInAnyCase | src/scrapers/wantedly.py:216-238 | `_has_next_page`: a link text holding 次, or next in any case, means a next page |
| Wantedly.Crawl | src/scrapers/wantedly.py:253-292 | the loop's jobs are the deduplicated jobs of the pages it reads, stopping at a failed fetch or when a page before the last shows no next link; ids are distinct |
| Wantedly.Search | src/scrapers/wantedly.py:240-295 | pages 1 to `max_pages` from their URLs, parsed and deduplicated by id |
| PathIds.IdFrom | src/scrapers/green.py:18 | the leftmost marker followed by at least one digit from a position, with its digits taken greedily; None exactly when there is none |
| PathIds.FindId | src/scrapers/green.py:196-197 | `match.group(1)`: a non-empty run of digits found right after the marker; None exactly when no position matches |
| PathIds.IdOfPath | src/scrapers/wantedly.py:172-176 | a URL that starts with the marker and digits gives back those digits |
| PathIds.IdAfterPrefix | src/scrapers/green.py:196-197 | a URL ending in marker and digits, with the marker nowhere earlier, gives back those digits |
| WantedlyBrowser.BuildSearchUrl | src/scrapers/wantedly_browser.py:57-71 | exactly the projects URL, `?page=` and the page number, then `&keywords=` and the quoted, space-joined keywords |
| WantedlyBrowser.LocationIsKeyword | src/scrapers/wantedly_browser.py:186-189 | a location is searched as one more keyword after a space |
| WantedlyBrowser.SearchUrlPagesDiffer | src/scrapers/wantedly_browser.py:205-206 | different page numbers give different URLs, and equal ones the same |
| WantedlyBrowser.EntryCountEnd | src/scrapers/wantedly_browser.py:107 | `\d+\s*エントリー` at the start of a text: digits first, ending with the word; its sound and complete lemmas fix the match |
| WantedlyBrowser.EntryCountEndSound | src/scrapers/wantedly_browser.py:107 | every end found is that of digits, then whitespace, then エントリー at the front |
| WantedlyBrowser.EntryCountEndComplete | src/scrapers/wantedly_browser.py:107 | every such match at the front is found whole, so None means no entry count starts the text |
| WantedlyBrowser.RemoveEntryCounts | src/scrapers/wantedly_browser.py:107 | `re.sub` of every entry count, leftmost first, with the empty string: never longer than the text; KeepsDigitFreePrefix, KeepsDigitRun and DropsEntryCount give its value piece by piece for any text |
| WantedlyBrowser.KeepsTextWithoutEntryWord | src/scrapers/wantedly_browser.py:107 | a text without the word エントリー is left as it is |
| WantedlyBrowser.KeepsDigitFreePrefix | src/scrapers/wantedly_browser.py:107 | a digit-free beginning is kept and the removal goes on after it |
| WantedlyBrowser.DropsEntryCount | src/scrapers/wantedly_browser.py:107 | an entry count at the front, with any whitespace before the word, is removed |
| WantedlyBrowser.NoEntryCountAfterDigits | src/scrapers/wantedly_browser.py:107 | a digit run not followed by whitespace and エントリー starts no entry count |
| WantedlyBrowser.KeepsDigitRun | src/scrapers/wantedly_browser.py:107 | such a digit run is kept and the removal goes on after it |
| WantedlyBrowser.KeepsDigitsBeforeTitle | src/scrapers/wantedly_browser.py:107 | digits starting a title, as a year, stay and only the entry count after the title is removed |
| WantedlyBrowser.CardTitle | src/scrapers/wantedly_browser.py:101-108 | the link is passed over exactly when its stripped text is shorter than five; otherwise the first min(200, length) characters of the cleaned, stripped text |
| WantedlyBrowser.TitleBeforeEntryCount | src/scrapers/wantedly_browser.py:106-108 | a digit-free title followed by an entry count gives that title |
| WantedlyBrowser.EntryCountOnlyTitle | src/scrapers/wantedly_browser.py:103-107 | a text that is only an entry count passes the length test but gives an empty title |
| WantedlyBrowser.CardUrlHoldsId | src/scrapers/wantedly_browser.py:122 | the URL built for a project gives back the project's id |
| WantedlyBrowser.ParseJobCards | src/scrapers/wantedly_browser.py:73-141 | the link scan with the browser's title rule and `/projects/<id>` URLs; ids distinct |
| WantedlyBrowser.ScrollToLoadMore | src/scrapers/wantedly_browser.py:143-171 | the loop returns the count recorded at the scroll where it stops |
| WantedlyBrowser.LastScroll | src/scrapers/wantedly_browser.py:155-162 | the last scroll made: every count up to it changed, and the next one repeats or the scrolls ran out |
| WantedlyBrowser.ScrollResult | src/scrapers/wantedly_browser.py:143-171 | no scroll returns 0; otherwise the count at the last scroll made |
| WantedlyBrowser.NoNewJobs | src/scrapers/wantedly_browser.py:226-229 | a page adds nothing exactly when every id on it was seen before |
| WantedlyBrowser.RoundsFromPages | src/scrapers/wantedly_browser.py:205-237 | every job found comes from a page that loaded, numbered at most `max_pages` |
| WantedlyBrowser.Crawl | src/scrapers/wantedly_browser.py:205-237 | the deduplicated jobs of the pages read: a timeout skips a page, another failure or a page with no new job stops; ids distinct |
| WantedlyBrowser.Search | src/scrapers/wantedly_browser.py:173-245 | the crawl over pages 1 to `max_pages` of the search with the location added as a keyword |
| Listing.ToRawJob | scripts/scrape_all_boards.py:194-222 | a scraped job always has its keys, so it is never rejected for a missing one; url and board are read as they are, and title and company are null exactly when the scraper gave None |
| Listing.SearchTerms | src/scrapers/wantedly_browser.py:186-189 | the keywords in order, then the location exactly when a non-empty one is given |
| Text.Join | src/scrapers/indeed.py:36 | `" ".join`: empty for no parts, the part itself for one |
| Text.JoinSnoc | src/scrapers/green.py:212 | joining one more part adds the separator and that part at the end |
| Text.Split | src/scrapers/green.py:119 | `str.split(c)`: at least one piece, none holding `c`, and joining them with `c` gives the text back |
| Text.SplitCons | src/scrapers/green.py:119 | `str.split(c)` of a piece without `c`, then `c`, then the rest: that piece followed by the split of the rest |
| Text.Truncate | src/scrapers/wantedly.py:199 | `s[:n]`: a prefix of the text, the whole text when it has at most `n` characters and exactly `n` characters otherwise |
| Counting.Collect | src/scrapers/doda.py:259-262 | the parsed results: every input that parses gives its result, every result comes from an input, and `CollectAppend`/`CollectOne` fix their order |
| Counting.CollectAppend | src/scrapers/doda.py:259-262 | the results of a concatenation are the results of each part, one after the other |
| Counting.CollectOne | src/scrapers/doda.py:259-262 | one input gives its result when it parses and nothing otherwise |
| Counting.FirstIndex | src/scrapers/indeed.py:192-197 | the position of the first element that qualifies; None exactly when none does |
| Counting.FirstWhere | src/scrapers/green.py:171-174 | the first element that qualifies, with none before it; None exactly when none does |
| Counting.Filter | src/matching/matcher.py:96-101 | the elements that qualify and only those, as many as qualify; `FilterAppend` and `FilterOne` fix their order |
| Counting.FilterAppend | src/matching/matcher.py:96-101 | filtering a concatenation filters each part and keeps them in order |
| Counting.FilterOne | src/matching/matcher.py:96-101 | one element is kept exactly when it qualifies |
| Text.CollapseSpaces | src/models/job_utils.py:26 | `re.sub(r"\s+", " ", text)`: never longer than its input, and a lower-case input stays lower case; its content is fixed by `CollapseWords`, `CollapseAfterSingleSpaced` and `CollapseSingleSpaced` |

## Left out

- Network and browser I/O: `BaseScraper.fetch` (src/scrapers/base.py), Playwright sessions, `goto`, clicks, waits and the random `delay` sleeps. Their outcomes are inputs: a fetched page or None, a browser view, a timeout.
- The doda browser scraper reaches its results by typing the joined search terms into the site's search form. Its `_build_search_url` is only logged, so the form interaction and that URL are not modelled. Its search starts from the first view.
- HTML parsing with BeautifulSoup (`find`, `select`, `get_text`): each card is a record of the strings the selectors would return. `_find_job_containers` (Green) and `_extract_dl_value` (doda) are DOM walks, so their results are parts of those records.
- `_extract_apollo_state` (Wantedly) and `json.loads`: the parsed state is a `Json` value. It is empty when the page has no valid state.
- Wantedly.TextField: a number, boolean, array or object stored under a text key (`title`, `locationName`, `name`) is read as None. Python would pass that value through unchanged.
- Wantedly.ScalarText: `str()` of an array or object id is not modelled, and such a project is dropped. Python would still emit it with the repr as its id. JSON numbers are integers here, so `str()` of a float id is not modelled either.
- `urljoin`, `urlencode` and `quote` are function parameters. The model does not assume any property of them.
- SHA-256 in `generate_fingerprint` is a parameter. Only its first 16 characters and its dependence on the normalised triple are modelled.
- Regular expressions are written as scanners. `\d` is taken as the ASCII and full-width digits, not every Unicode decimal digit. `\s` and `strip()` use Python's whitespace set.
- Text.Lower: Python's `str.lower` is modelled on ASCII letters only. Other letters, such as full-width Latin ones, are left as they are.
- Exceptions raised inside the per-card `try` blocks, other than those the model names (a non-object company entry in the Apollo state, a scrape or commit failure), cannot occur on the modelled inputs.
- In the Wantedly browser scraper, a failure to read the company of a card is swallowed, so the company stays "". The company text is an input of each link.
- Floating point: `match_score = score / 100.0`, `duration_seconds` and timing. `int(ratio * W)` is modelled as the integer division `(n * W) / k`, which can differ from the float product in rare rounding cases. `float('inf')` is an absent upper bound.
- Concurrency: the `ThreadPoolExecutor` branch of `run_all_scrapers` is not modelled. The sequential path produces the same one result per enabled scraper.
- SQLAlchemy sessions are modelled only as far as the ingestion loop sees them. Autoflush is modelled: a batch is a table updated row by row, so a later job finds an earlier one as a duplicate. A row with a null title, company or url sets the batch's `broken` flag, because its flush fails; every later job is then an error and the commit fails. A separate flag says whether the commit fails for any other reason, and on failure the table is restored, as a rollback would do. Query order and isolation are not modelled.
- ScrapeAndStore.StoreJobsBalanced: with jobs lacking a title, the count of errors is bounded, not given in closed form. A None title adds a TypeError only while the session is unbroken, and the first new job without a title breaks it.
- ScrapeAndStore.ScrapeAllTotals: the same bound applies to the totals; they are exact only when every title is present.
- Orchestrator.NotNullViolation: the message of a commit that fails after a null NOT NULL column is a fixed text. The source reports `str(e)` of SQLAlchemy's IntegrityError or PendingRollbackError, whose text depends on the database driver.
- Orchestrator.GetScraperConfig: a setting present with an explicit JSON null cannot be written; an absent key and a present one are the only cases. Python would use the None.
- Text.CollapseSpaces: no single clause gives the collapsed text of an arbitrary input. Its lemmas give it for single-spaced text, for a single-spaced prefix followed by anything, and for words separated by runs of whitespace.
- Matcher.NormalizeForMatch: the result is given exactly only for a text already in normal form with whitespace padding, and for two words around whitespace. For other inputs the contract gives its shape: lower case, stripped, single-spaced, no longer than the input.
- DescriptionOf: a non-string excerpt or description (a number, array or object) reads as "". Python would return that value itself.
- Logging, apart from the debug line of `store_jobs` whose f-string raises for a None title, `print_report`, `load_config` (reading a JSON file with `json.load`, or the defaults when there is none), `main`'s argument parsing apart from `--only` and the exit status, and `MatchDetails.to_dict`: output and file formatting only.
- `update_job_seen` (src/models/job_utils.py:87-95) is not modelled as its own operation. The same refresh, inside the ingestion loops, is `Ingest.Refresh`.
- `get_matches_for_user` (src/matching/matcher.py:333) is a read-only query joined with the jobs table for display, so it is not modelled.
- `search_from_html` (src/scrapers/indeed.py:270-280) is `_parse_page` without its next URL, so it is not modelled.
- `_scroll_to_load_more` is never called by the Wantedly browser's `search`. It is modelled on its own, with the link count after each scroll as an input.
- src/web/app.py, the other scripts, the migrations and the ORM definitions in src/models/database.py are not part of this model. The model uses the ORM's unique `url`, the NOT NULL `title`, `company` and `url` columns (a row lacking one cannot be flushed, which sets a batch's `broken` flag) and the non-null `is_active`.
