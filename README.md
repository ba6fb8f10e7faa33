# UK immigration updates tracker: scraper, scheduler and country page

This project models the core of an application that tracks UK immigration
policy pages. Its parts:

- **The backend scraper, `fetch_and_store`.** It reads a list of configured
  update sources and fetches each listing page. It walks the items in order and
  stores every unseen article whose publication date falls inside a window of
  `days_back` days ending today. It stops at the first unseen item that is
  older than the window. Finally it stamps each source it completed with the
  run time.
- **`parse_date`.** Turns a listing's date text into a date. It accepts
  `11 July 2025` (with trailing prose), `2025-07-11` and `11/07/2025`.
- **The test-mode scraper, `fetch_and_print`.** It applies the same
  extraction rules, stores nothing and shows at most five items per source.
- **The scheduler.** It builds its job list from a configuration: a daily job,
  an optional hourly job and custom `"<n>h"` / `"<n>m"` jobs. It runs the
  scraper from a background loop that it starts and stops.
- **The five shipped scheduler configurations.**
- **The HTTP endpoints that control the scheduler.** These are status, start,
  stop, restart and the log tail.
- **The frontend's country page.** It takes the titles of the three most
  recent articles as updates. Its tags are the first three immigration terms
  found in the articles' text, with fallbacks.

How the code maps to Dafny:

- Pure code is modelled as datatypes, functions and lemmas.
- The database, the web and the scheduler are classes whose methods update
  their fields.
- Every loop is a method. Each is proved against a recursive specification
  function (`ScanItems`, `IngestFrom`, `PreviewItems`, `CustomJobs`,
  `DueRuns`), and the properties are proved about those functions.

These stay outside the model and become parameters:

- HTTP is a map from listing URL to `Page`; a CSS selection is an `Item`
  record of the texts found.
- `urljoin` is a function parameter.
- The clock is an explicit `today` / `now`.
- The `schedule` library's next-run instants and due jobs are parameters.
- The log file's contents are a parameter.

The files:

- `options.dfy`: the `Option` type.
- `py_text.dfy`: `str.strip`, `int()`, `str()` and zero-padding.
- `calendar.dfy`: `datetime.date` and its day ordinals.
- `date_parser.dfy`: the parser and what is proved about it.
- `sources.dfy`: the source configuration, extracted items and the web.
- `article_store.dfy`: the articles and sources tables.
- `ingestion.dfy` and `ingestion_facts.dfy`: `fetch_and_store`.
- `test_scraper.dfy`: `fetch_and_print`.
- `scheduler_config.dfy`, `scheduler.dfy` and `scheduler_facts.dfy`: the scheduler.
- `scheduler_api.dfy`: the endpoints.
- `country_view.dfy`: the frontend.

## Model

| member | source | states |
|---|---|---|
| ArticleStore.Insert | backend/app/scrapper/scrape_uk.py:63-73 | the insert succeeds exactly when the URL is new; the URL then maps to the new article, otherwise the stored one stays; no other entry changes and the key set gains only the URL |
| ArticleStore.ArticleDb.ArticleExists | backend/app/scrapper/scrape_uk.py:58-61 | true exactly when an article with that URL is stored |
| ArticleStore.ArticleDb.AddArticle | backend/app/scrapper/scrape_uk.py:63-73 | the table becomes `Insert` of the old one and the result is its success flag; `last_scraped` is untouched |
| ArticleStore.ArticleDb.TouchSource | backend/app/scrapper/scrape_uk.py:218-219 | only the source's `last_scraped` entry changes, to the given time |
| Calendar.OrdinalOrder | backend/app/scrapper/scrape_uk.py:189 | ordinals order dates as Python compares them (both directions) and are injective, so the window test may be read on ordinals |
| Calendar.OrdinalRange | backend/app/scrapper/scrape_uk.py:114-115 | every valid date has an ordinal in [1, 3652059] |
| DateParser.MonthNumber | backend/app/scrapper/scrape_uk.py:88 | a word `%B` accepts is, in lower case, the name of the month whose number it returns |
| DateParserFacts.MonthNumberNone | backend/app/scrapper/scrape_uk.py:88 | `%B` refuses a word whose lower-case form is none of the twelve English month names |
| DateParser.ParseDate | backend/app/scrapper/scrape_uk.py:75-101 | any date returned is a valid calendar date; absent or empty text gives none |
| DateParser.ParseStripped | backend/app/scrapper/scrape_uk.py:82-101 | the three formats tried in turn on stripped text: any date given is a valid calendar date; `EmptyParsesToNothing`, `PrefixFormsExclusive` and the branch lemmas state which |
| DateParser.MatchLong | backend/app/scrapper/scrape_uk.py:84-87 | no contract of its own; `MatchLongIsRegex` states it is the regular expression match and capture |
| DateParser.MatchIsoPrefix | backend/app/scrapper/scrape_uk.py:91 | no contract of its own; `PrefixFormsExclusive` and `ParseDateByIso` state its role |
| DateParser.MatchSlashPrefix | backend/app/scrapper/scrape_uk.py:95 | no contract of its own; `MatchSlashIsRegex` states it is `re.match(r'\d{1,2}/\d{1,2}/\d{4}')` |
| DateParser.NumberField | backend/app/scrapper/scrape_uk.py:88-96 | a `%d` or `%m` field of one or two digits is accepted only with a value in 1..hi; `SlashFields` and `LongBranchDate` state which value |
| DateParser.MakeDate | backend/app/scrapper/scrape_uk.py:88-96 | the `datetime` constructor: a date given is exactly the fields asked for and is a valid calendar date |
| DateParser.StrptimeLong | backend/app/scrapper/scrape_uk.py:88 | `strptime(capture, '%d %B %Y')`: any date it gives is a valid calendar date; `LongBranchDate` states which |
| DateParser.StrptimeSlash | backend/app/scrapper/scrape_uk.py:96 | `strptime(text, '%d/%m/%Y')` on the whole text: any date it gives is valid; `SlashFields` states which |
| DateParser.FromIsoFormat | backend/app/scrapper/scrape_uk.py:92 | `datetime.fromisoformat` on the date-only form: any date it gives is valid; `IsoTextParses` and `IsoBranchIsCanonical` state which |
| PyText.ParseInt | backend/app/scheduler/scheduler.py:92 | Python's `int()` on a string: it accepts only non-blank text, and a negative value only with a leading minus |
| PyText.ParseIntOfIntToString | backend/app/scheduler/scheduler.py:92 | `int(str(n)) == n` for every integer |
| PyText.Strip | backend/app/scrapper/scrape_uk.py:80 | `str.strip()`: the result is a slice of the text starting after its leading whitespace, and neither starts nor ends with whitespace |
| PyText.IntToString | backend/app/scheduler/scheduler.py:164 | `str(n)`; no contract of its own, `ParseIntOfIntToString` states that `int()` reads it back as `n` |
| DateParserFacts.MatchLongIsRegex | backend/app/scrapper/scrape_uk.py:84-87 | the long-form matcher succeeds exactly when `\d{1,2}\s+\w+\s+\d{4}` matches at the start, and returns the pieces of that match |
| DateParserFacts.MatchSlashIsRegex | backend/app/scrapper/scrape_uk.py:95 | the slash-form matcher holds exactly when `\d{1,2}/\d{1,2}/\d{4}` matches at the start |
| DateParserFacts.PrefixFormsExclusive | backend/app/scrapper/scrape_uk.py:84-96 | no text starts with two of the three forms, so the branch order matters only in that a failed parse is final |
| DateParserFacts.LongBranchDate | backend/app/scrapper/scrape_uk.py:84-88 | once the long prefix matches, canonical or not ("05 July 2025", "11 JULY 2025"), the text gives a date exactly when the day is in 1..31, `%B` accepts the word and day, month and year form a calendar date; the date is then made of those three fields, and no later form is tried |
| DateParserFacts.ParseDateBySlash | backend/app/scrapper/scrape_uk.py:95-96 | once the slash prefix matches, the result is `strptime(text, '%d/%m/%Y')` on the whole stripped text |
| DateParserFacts.LongTextParses | backend/app/scrapper/scrape_uk.py:83-88 | every valid date written `D Month YYYY`, followed by any text, parses back to that date |
| DateParserFacts.IsoTextParses | backend/app/scrapper/scrape_uk.py:90-92 | every valid date written `YYYY-MM-DD` parses back to that date |
| DateParserFacts.SlashTextParses | backend/app/scrapper/scrape_uk.py:94-96 | every valid date written `DD/MM/YYYY` parses back to that date |
| DateParserFacts.IsoBranchIsCanonical | backend/app/scrapper/scrape_uk.py:91-92 | a text that takes the ISO branch and parses is exactly the date's `YYYY-MM-DD` rendering |
| DateParserFacts.ParseDateIgnoresBlanks | backend/app/scrapper/scrape_uk.py:80 | parsing the stripped text gives the same result as parsing the raw text |
| DateParserFacts.ExamplesAccepted | backend/app/scrapper/scrape_uk.py:83-96 | "11 July 2025 published amendments", "2025-07-11" and "11/07/2025" all parse to 11 July 2025 |
| DateParserFacts.ExampleAbbreviatedMonth | backend/app/scrapper/scrape_uk.py:84-88 | "11 Jul 2025" takes the long branch, `%B` refuses "Jul", and the result is no date |
| DateParserFacts.NotAMonthNoDate | backend/app/scrapper/scrape_uk.py:84-88 | a text `D word YYYY` whose word `%B` refuses gives no date: the long branch is taken and fails, and no other form is tried |
| DateParserFacts.SlashFields | backend/app/scrapper/scrape_uk.py:95-96 | any `DD/MM/YYYY` digits match the slash form, and `strptime` gives the date of those fields, or nothing when a field is out of range |
| DateParserFacts.ParseDateByIso | backend/app/scrapper/scrape_uk.py:90-92 | once the ISO prefix matches, the result is `datetime.fromisoformat` of the stripped text, for the date-only form this model gives it |
| DateParserFacts.SlashTextParsesAs | backend/app/scrapper/scrape_uk.py:94-96 | a `DD/MM/YYYY` text of digits parses to whatever `strptime(text, '%d/%m/%Y')` gives |
| DateParserFacts.ExampleNoSuchDay | backend/app/scrapper/scrape_uk.py:95-96 | "31/02/2025" matches the slash form but gives no date |
| DateParserFacts.NoLeadingDigitNoDate | backend/app/scrapper/scrape_uk.py:84-101 | a text whose stripped form does not start with a digit never parses |
| Sources.EssentialUrls | backend/app/scrapper/scrape_uk.py:143-149 | the requested URLs are at most one per source, each from a source with its item, link and title selectors |
| Sources.EssentialUrlsComplete | backend/app/scrapper/scrape_uk.py:143-149 | every source with its item, link and title selectors has its URL requested |
| Sources.EssentialUrlsAppend | backend/app/scrapper/scrape_uk.py:128-149 | the requests of two consecutive stretches of the configuration are the first's followed by the second's, so listings are requested in configuration order |
| Sources.HasEssentialSelectors | backend/app/scrapper/scrape_uk.py:144 | no contract of its own; `IngestOutcomes` states that a source is skipped exactly when it fails this test |
| Sources.PageAt | backend/app/scrapper/scrape_uk.py:149-150 | no contract of its own; `Sources.Web.Get` states that a request returns it |
| Sources.LinkOf | backend/app/scrapper/scrape_uk.py:161-163 | an item has a link exactly when its `href` is present and non-empty |
| Sources.TitleOf | backend/app/scrapper/scrape_uk.py:172-173 | the title text, or "No title found" when the selector finds nothing |
| Sources.SubtitleOf | backend/app/scrapper/scrape_uk.py:176-177 | the subtitle text when the selector is given and finds something, otherwise "No subtitle" |
| Sources.DateTextOf | backend/app/scrapper/scrape_uk.py:180-181 | the date text when the selector is given and finds something, otherwise "No date" |
| Sources.Web.Get | backend/app/scrapper/scrape_uk.py:149-153 | returns what the URL serves (a failure when nothing) and appends the URL to the request log |
| Ingestion.MakeWindow | backend/app/scrapper/scrape_uk.py:114-115 | the window is [today − days_back, today] as ordinals, and is absent exactly when its start leaves years 1 to 9999 (the `OverflowError`) |
| Ingestion.Step | backend/app/scrapper/scrape_uk.py:159-211 | one item of the walk; no contract of its own, `StepKeys` and `KnownItemsAreSkipped` state its effect |
| Ingestion.Place | backend/app/scrapper/scrape_uk.py:184-209 | an unseen item once its date is parsed: stored when inside the window, ending the walk when older, skipped when newer or undated; no contract of its own, `StepKeys` states its effect |
| Ingestion.ScanItems | backend/app/scrapper/scrape_uk.py:159-211 | the item loop; no contract of its own, `ScanGrows`, `ScanCounts`, `ScanStoresInWindow` and `SortedListingStoresWindow` state what it does |
| Ingestion.IngestFrom | backend/app/scrapper/scrape_uk.py:128-224 | the source loop; no contract of its own, `IngestOutcomes`, `IngestTotal`, `IngestFetches`, `IngestArticles` and `IngestStamps` state what it does |
| Ingestion.ScrapeSource | backend/app/scrapper/scrape_uk.py:128-224 | one source of the loop; no contract of its own, `SourceStep` states its effect |
| Ingestion.FetchAndStoreSpec | backend/app/scrapper/scrape_uk.py:103-227 | the whole run; no contract of its own, `FetchAndStoreSummary` states what it does and `Ingestion.FetchAndStore` that the imperative run matches it |
| Ingestion.ScrapeItem | backend/app/scrapper/scrape_uk.py:159-211 | one loop iteration on the database equals the specification step `Step` |
| Ingestion.StoreDated | backend/app/scrapper/scrape_uk.py:184-209 | after the date is parsed, the database change and counters equal `Place`: store in window, stop if older, skip otherwise |
| Ingestion.ScrapeItems | backend/app/scrapper/scrape_uk.py:159-211 | the item loop leaves the table, counters and stop reason that `ScanItems` specifies, and leaves `last_scraped` untouched |
| Ingestion.FetchAndStore | backend/app/scrapper/scrape_uk.py:103-227 | the run leaves the tables, request log, total and per-source outcomes of `FetchAndStoreSpec`; when the window overflows, the modelled tables and request log are untouched |
| IngestionFacts.ScanGrows | backend/app/scrapper/scrape_uk.py:168-203 | the walk never removes or overwrites a stored article |
| IngestionFacts.ScanCounts | backend/app/scrapper/scrape_uk.py:156-200 | `in_range_count` grows by at most one per item, `new_articles_count` equals it, and the table grows by exactly that many |
| IngestionFacts.ScanStoresInWindow | backend/app/scrapper/scrape_uk.py:186-201 | every article the walk stores has the source's id and a valid date inside the window |
| IngestionFacts.ScanAppend | backend/app/scrapper/scrape_uk.py:159 | walking a listing in two pieces is walking it whole |
| IngestionFacts.StoppedScanIgnoresRest | backend/app/scrapper/scrape_uk.py:204-209 | once the walk has stopped, the items after that point are never looked at |
| IngestionFacts.RescanAddsNothing | backend/app/scrapper/scrape_uk.py:167-169 | a second walk from the store the first left inserts and counts nothing and stops where the first did |
| IngestionFacts.ScrapeTwiceIdempotent | backend/app/scrapper/scrape_uk.py:167-203 | scraping the same listing twice: the second time stores nothing and reports nothing in range |
| IngestionFacts.NoDateNeverParses | backend/app/scrapper/scrape_uk.py:181 | the sentinel "No date" never parses |
| IngestionFacts.NoDateSelectorStoresNothing | backend/app/scrapper/scrape_uk.py:180-186 | a source without a date selector stores nothing, counts nothing and never stops early |
| IngestionFacts.IngestOutcomes | backend/app/scrapper/scrape_uk.py:128-224 | one outcome per source, `Skipped` exactly for sources missing an essential selector, and added equals in range for every walked source |
| IngestionFacts.IngestTotal | backend/app/scrapper/scrape_uk.py:126-200 | `total_new_articles` is the sum of the per-source new counts |
| IngestionFacts.IngestFetches | backend/app/scrapper/scrape_uk.py:143-149 | exactly the listings of the sources with their selectors are requested, in configuration order |
| IngestionFacts.IngestArticles | backend/app/scrapper/scrape_uk.py:128-203 | articles only grow; each new one has a date in the window and the id of a later source |
| IngestionFacts.SourceStep | backend/app/scrapper/scrape_uk.py:128-224 | one source appends one outcome, adds its count to the total, is requested exactly when it has its selectors, and stamps only its own `last_scraped`, only on completion |
| IngestionFacts.IngestStamps | backend/app/scrapper/scrape_uk.py:128-132 | `last_scraped` is stamped with the run time exactly for completed sources, keyed by 1-based position; the rest is unchanged |
| IngestionFacts.FetchAndStoreSummary | backend/app/scrapper/scrape_uk.py:103-227 | the run fails up front exactly when the window start is not a date; otherwise every source has one outcome, the total is their sum, exactly the essential listings are fetched, and every new article lies in the window |
| IngestionFacts.KnownItemsAreSkipped | backend/app/scrapper/scrape_uk.py:167-169 | already stored items change nothing and never end the walk, however old their date |
| IngestionFacts.OlderListingHasNothingInWindow | backend/app/scrapper/scrape_uk.py:204-209 | items all dated before the window hold nothing in the window |
| IngestionFacts.StepKeys | backend/app/scrapper/scrape_uk.py:186-209 | one dated item either stops the walk (older than the window, nothing stored) or adds its URL exactly when dated inside the window |
| IngestionFacts.SortedListingStoresWindow | backend/app/scrapper/scrape_uk.py:204-209 | on a newest-first listing, the early stop loses nothing: exactly the in-window items end up stored |
| TestScraper.PreviewOf | scrapper/scrape_uk.py:56-80 | the preview holds the link resolved against the source URL, the title, subtitle and date text as extracted, and `fromisoformat` of the date text, a valid date when present |
| TestScraper.PreviewItems | scrapper/scrape_uk.py:46-88 | the item loop; no contract of its own, `PreviewIsCappedPrefix`, `PreviewCount` and `NoMalformedNoFailure` state what it does |
| TestScraper.LinkedPreviews | scrapper/scrape_uk.py:50-80 | the previews of every item with a link, uncapped; no contract of its own, the reference that `PreviewIsCappedPrefix` compares the loop with |
| TestScraper.PreviewSource | scrapper/scrape_uk.py:33-97 | one source of `fetch_and_print`; no contract of its own, `FetchAndPrint` and `PrintSource` state that the loop matches it |
| TestScraper.PrintSource | scrapper/scrape_uk.py:33-97 | one source: the outcome is `PreviewSource`, and its listing is requested exactly when it has its essential selectors |
| TestScraper.PreviewListing | scrapper/scrape_uk.py:46-88 | the item loop returns the previews and the failure flag of `PreviewItems` |
| TestScraper.FetchAndPrint | scrapper/scrape_uk.py:15-97 | one outcome per source, each `PreviewSource`; exactly the essential listings are requested, in order |
| TestScraper.PreviewIsCappedPrefix | scrapper/scrape_uk.py:46-88 | at most five previews; without an exception, exactly the first min(5, n) items with a link, in order, counted even when their date does not parse |
| TestScraper.PreviewCount | scrapper/scrape_uk.py:82-88 | a listing without an exception shows min(5, n) previews |
| TestScraper.NoMalformedNoFailure | scrapper/scrape_uk.py:94-97 | without a malformed item the walk reports no exception |
| Scheduler.BuildJobs | backend/app/scheduler/scheduler.py:61-102 | the job list after `schedule_jobs`: without a `daily_scraping` section the direct index raises before any job is made; `DailyJobIff`, `HourlyJobIff`, `JobCount` and `CustomJobsCount` state its contents |
| Scheduler.CustomJobs | backend/app/scheduler/scheduler.py:86-102 | the custom loop; no contract of its own, `CustomJobsCount`, `CustomJobsUpToError` and `CustomJobsErrorSource` state what it does |
| Scheduler.DailyJobs | backend/app/scheduler/scheduler.py:67-74 | no contract of its own; `DailyJobIff` states when the daily job exists |
| Scheduler.HourlyJobs | backend/app/scheduler/scheduler.py:77-83 | no contract of its own; `HourlyJobIff` states when the hourly job exists |
| Scheduler.StartupRuns | backend/app/scheduler/scheduler.py:104-108 | no contract of its own; `ScheduleJobs` and `DefaultJobs` state the startup run |
| Scheduler.DueRuns | backend/app/scheduler/scheduler.py:115-118 | no contract of its own; `PollCycle` states that the loop makes these runs |
| Scheduler.InfoOf | backend/app/scheduler/scheduler.py:161-166 | no contract of its own; `JobInfoIntervalReadsBack` states that the interval reads back and the unit is days, hours or minutes |
| Scheduler.InfosOf | backend/app/scheduler/scheduler.py:159-166 | one entry per job, in order, each the job's `InfoOf` |
| Scheduler.StartTransition | backend/app/scheduler/scheduler.py:126-135 | no contract of its own; `LifecycleConsistent` states it keeps `running` only with a live thread |
| Scheduler.StopTransition | backend/app/scheduler/scheduler.py:137-142 | no contract of its own; `LifecycleConsistent` states it keeps `running` only with a live thread |
| Scheduler.WakeTransition | backend/app/scheduler/scheduler.py:115-118 | no contract of its own; `LifecycleConsistent` and `RestartCanLeaveStopped` state its effect |
| Scheduler.CustomJob | backend/app/scheduler/scheduler.py:86-102 | a disabled entry makes no job; a job made carries the entry's `days_back` (3 by default) |
| Scheduler.EffectiveDaysBack | backend/app/scheduler/scheduler.py:52 | a given non-zero `days_back` is used; none or zero falls back to `default_days_back` (3 by default) |
| Scheduler.EarliestRun | backend/app/scheduler/scheduler.py:144-155 | the earliest next run is some job's next run and no job's is earlier |
| Scheduler.ScrapingScheduler.constructor | backend/app/scheduler/scheduler.py:40-43 | a falsy configuration is replaced by the default; the scheduler starts stopped, without jobs |
| Scheduler.ScrapingScheduler.RunScrapingTask | backend/app/scheduler/scheduler.py:45-59 | appends one scraping run with the effective `days_back`; jobs and life cycle untouched |
| Scheduler.ScrapingScheduler.ScheduleJobs | backend/app/scheduler/scheduler.py:61-108 | the job list becomes `BuildJobs(config)` (daily, hourly, custom, stopping at an exception), the error is `BuildJobs`'s, and the startup run is appended when configured and nothing raised |
| Scheduler.ScrapingScheduler.Start | backend/app/scheduler/scheduler.py:126-135 | a no-op while the thread is alive; otherwise jobs are rebuilt and, unless that raises, the scheduler is running with a live thread |
| Scheduler.ScrapingScheduler.Stop | backend/app/scheduler/scheduler.py:137-142 | `running` is cleared; the thread is gone only if it ended within the wait |
| Scheduler.ScrapingScheduler.Join | backend/app/scheduler/scheduler.py:115-118 | with `running` cleared, the loop ends when it next wakes and no thread is left; the source never waits for this without a time limit, so `Join` stands for the loop noticing the cleared flag, and for the waiting restart of `RestartSchedulerJoined` |
| Scheduler.ScrapingScheduler.PollCycle | backend/app/scheduler/scheduler.py:110-124 | a live running loop runs the due jobs in order with their `days_back`; a loop that sees `running` cleared ends |
| Scheduler.ScrapingScheduler.GetNextRun | backend/app/scheduler/scheduler.py:144-155 | none exactly when there are no jobs; otherwise the earliest job's next run and the time until it |
| Scheduler.ScrapingScheduler.GetJobInfo | backend/app/scheduler/scheduler.py:157-167 | one entry per job, in order, with its function name, next run, interval text and unit |
| SchedulerFacts.CustomJobCases | backend/app/scheduler/scheduler.py:87-102 | an entry makes no job exactly when it is disabled or its unit is neither `h` nor `m`; it raises exactly when `int()` refuses the number |
| SchedulerFacts.CustomJobsCount | backend/app/scheduler/scheduler.py:86-102 | without an exception, one job per registering entry; after one, exactly the jobs of the registering entries before the first entry that raised; custom jobs are never daily or hourly |
| SchedulerFacts.CustomJobsUpToError | backend/app/scheduler/scheduler.py:86-102 | the loop raises the error of the first entry whose number `int()` refuses, keeping one job per registering entry before it |
| SchedulerFacts.CustomJobsErrorSource | backend/app/scheduler/scheduler.py:92-97 | an exception comes from the first entry whose interval number `int()` refuses |
| SchedulerFacts.DailyJobIff | backend/app/scheduler/scheduler.py:67-74 | a daily job exists exactly when the daily section exists and does not disable it |
| SchedulerFacts.HourlyJobIff | backend/app/scheduler/scheduler.py:77-83 | an hourly job exists exactly when the daily section exists and the hourly section enables it |
| SchedulerFacts.JobCount | backend/app/scheduler/scheduler.py:61-102 | without an exception, the job count is the enabled daily and hourly jobs plus the registering custom entries |
| SchedulerFacts.JobInfoIntervalReadsBack | backend/app/scheduler/scheduler.py:157-167 | a job's reported interval text reads back through `int()` as its interval, and its unit is days, hours or minutes |
| SchedulerFacts.CustomJobInfoMatchesEntry | backend/app/scheduler/scheduler.py:91-102 | a custom job reports the number and unit written in its configuration entry |
| SchedulerFacts.CustomJobOfNumber | backend/app/scheduler/scheduler.py:91-102 | an enabled `"<n>h"` or `"<n>m"` entry makes an every-n-hours or every-n-minutes job |
| SchedulerFacts.LifecycleConsistent | backend/app/scheduler/scheduler.py:110-142 | start, stop and the loop's wake-up keep `running` set only while the thread lives |
| SchedulerFacts.DefaultJobs | backend/app/config/scheduler_config.py:5-58 | the default configuration registers only the 09:00 daily job with three days back, and scrapes three days back on startup |
| SchedulerFacts.DailyOnlyJobs | backend/app/config/scheduler_config.py:61-70 | only the 08:00 daily job |
| SchedulerFacts.FrequentMonitoringJobs | backend/app/config/scheduler_config.py:72-84 | daily, hourly and every 30 minutes |
| SchedulerFacts.BusinessHoursJobs | backend/app/config/scheduler_config.py:86-97 | daily and every 4 hours with two days back |
| SchedulerFacts.TestJobs | backend/app/config/scheduler_config.py:99-113 | only the every-2-minutes job |
| SchedulerApi.SchedulerRouter.GetScheduler | backend/app/api/routers/scheduler.py:23-30 | the first call creates a default, stopped scheduler; later calls return that same instance |
| SchedulerApi.GetSchedulerStatus | backend/app/api/routers/scheduler.py:32-51 | rebuilds the jobs (running the startup scrape when configured); reports `running`, one entry per job and the earliest next run, or 500 when rebuilding raises |
| SchedulerApi.StartScheduler | backend/app/api/routers/scheduler.py:53-67 | 400 and no change while `running`; otherwise `start`: with no live thread the jobs are rebuilt and the startup scrape runs inside the request, with a live thread jobs and runs stay; success is reported even when a live thread made it a no-op |
| SchedulerApi.StopScheduler | backend/app/api/routers/scheduler.py:69-83 | 400 and no change unless `running`; otherwise `stop` and success |
| SchedulerApi.RestartScheduler | backend/app/api/routers/scheduler.py:85-99 | stop if running, then start; when the start gets past its live-thread check the jobs are rebuilt and the startup scrape runs, otherwise jobs and runs stay; reports success unless rebuilding the jobs raised |
| SchedulerApi.RestartCanLeaveStopped | backend/app/api/routers/scheduler.py:95-99 | a restart whose join times out leaves the scheduler stopped once the old thread wakes |
| SchedulerApi.RestartSchedulerJoined | backend/app/api/routers/scheduler.py:85-99 | a restart that waits for the old thread always ends running when the jobs build |
| SchedulerApi.RestartTransition | backend/app/api/routers/scheduler.py:95-99 | no contract of its own; `RestartCanLeaveStopped` and `RestartSchedulerJoined` state where a restart ends |
| SchedulerApi.RestartRebuilds | backend/app/api/routers/scheduler.py:95-99 | no contract of its own; `RestartScheduler` states that the jobs are rebuilt exactly when it holds |
| SchedulerApi.GetSchedulerStatusReadOnly | backend/app/api/routers/scheduler.py:32-51 | reports the same status fields without changing the scheduler or scraping |
| SchedulerApi.SliceFrom | backend/app/api/routers/scheduler.py:174 | Python's `xs[start:]`, with negative starts counted from the end and both clamped |
| SchedulerApi.LogTail | backend/app/api/routers/scheduler.py:174 | no contract of its own; `LogTailPositive`, `LogTailNonPositive` and `LogTailClamped` state what it returns |
| SchedulerApi.LogTailPositive | backend/app/api/routers/scheduler.py:174 | for a positive count, the tail is the last min(lines, total) lines |
| SchedulerApi.LogTailNonPositive | backend/app/api/routers/scheduler.py:174 | a count of 0 returns the whole log; a count of −k drops the first k lines |
| SchedulerApi.LogTailClamped | backend/app/api/routers/scheduler.py:173-174 | exactly the last max(0, min(lines, total)) lines, and equal to the handler's tail for positive counts |
| SchedulerApi.GetSchedulerLogs | backend/app/api/routers/scheduler.py:150-180 | no file gives the no-log reply; otherwise the tail with the total and returned line counts |
| CountryView.FilterTerms | frontend/src/services/api.ts:189-191 | a term is kept exactly when it is listed and occurs in the text |
| CountryView.ArticleText | frontend/src/services/api.ts:186 | no contract of its own; `ContainsInArticle` states that a term occurs in it exactly when it occurs in the title, subtitle or content |
| CountryView.JoinSpace | frontend/src/services/api.ts:185-187 | no contract of its own; `ContainsInSomeArticle` states what a term found in the joined text means |
| CountryView.AllText | frontend/src/services/api.ts:185-187 | no contract of its own; `ContainsInSomeArticle` states that a term occurs in it exactly when it occurs in some article |
| CountryView.Contains | frontend/src/services/api.ts:190 | no contract of its own; `ContainsInSomeArticle` and `ContainsInArticle` state it on the article texts |
| CountryView.Take | frontend/src/services/api.ts:191 | `slice(0, n)` is the first min(n, length) elements |
| CountryView.ExtractTags | frontend/src/services/api.ts:178-194 | there are always between one and three tags |
| CountryView.GetCountryData | frontend/src/services/api.ts:101-114 | only "uk" has data, and that data is the UK page built from the recent articles |
| CountryView.UKCountryData | frontend/src/services/api.ts:119-173 | the page is always the United Kingdom's and always shows at least one update and one tag |
| CountryViewFacts.FailedRequestFallback | frontend/src/services/api.ts:155-171 | a failed request shows the loading updates and tags, and a page built from a response never shows the loading tags |
| CountryViewFacts.FilterTermsInOrder | frontend/src/services/api.ts:189-191 | the found terms keep the list's order |
| CountryViewFacts.ExtractTagsOrder | frontend/src/services/api.ts:189-193 | when some term occurs the tags keep the list's order, and an occurring term is a tag whenever a term listed after it is |
| CountryViewFacts.ExtractTagsSoundComplete | frontend/src/services/api.ts:189-193 | found tags are listed terms that occur; a found term left out means three were found; defaults appear exactly when no term occurs |
| CountryViewFacts.UKCountryDataTags | frontend/src/services/api.ts:134-153 | the page's tags are exactly `extractTagsFromArticles`' (its own fallback is never taken) |
| CountryViewFacts.UKCountryDataUpdates | frontend/src/services/api.ts:131-152 | updates are the article titles in order, or the three placeholder lines when there are none |
| CountryViewFacts.NoArticlesDefaultTags | frontend/src/services/api.ts:193 | no article gives the default tags |
| CountryViewFacts.ContainsInSomeArticle | frontend/src/services/api.ts:185-191 | a term occurs in the joined text exactly when it occurs in some single article's text |
| CountryViewFacts.ContainsInArticle | frontend/src/services/api.ts:186-187 | a term occurs in an article's text exactly when it occurs in its title, subtitle or content |
| CountryViewFacts.TermsHaveNoSpace | frontend/src/services/api.ts:179-183 | every listed term is non-empty and has no space |

## Left out

- Fetching, HTML parsing and CSS selection are not modelled. The listing URL maps to a `Page`, and each matched item is a record of the stripped texts its selectors found.
- `urljoin` is a function parameter.
- The clock is a parameter: `date.today()`, `datetime.utcnow()`, and `now` in the scheduler.
- The configuration file is a parameter. So is the log file's content.
- Printing and logging are not modelled.
- Python's `\d` and `\w` are modelled as ASCII only. Unicode digits and letters, which Python's `re` also accepts, are not modelled.
- `%B` is modelled for the English month names only, with no locale.
- `datetime.fromisoformat` is modelled for the date-only `YYYY-MM-DD` form only. Every Python version also accepts a time after the date and one separator character; newer versions add week dates and compact digits. All of these give no date in this model.
- A missing key in a source entry raises `KeyError` in the source; the model does not cover this.
- The source's `label` field is only printed, so it is left out.
- An exception while walking an item is modelled as a `Malformed` item. It ends that source and keeps what was inserted before it.
- Database commit, rollback and connection handling are not modelled. Inserted rows count as written.
- In the sequential model an `add_article` after a negative `article_exists` always succeeds. The concurrent-insert race is not modelled.
- Threads are modelled as method calls. `Start` sets `running` at once, whereas in the source the new thread sets it on its first step. The race between those two is not modelled.
- The `KeyboardInterrupt` branch of the scheduler loop is not modelled.
- The `schedule` library's job list is the `jobs` field of the scheduler. The library is global in the source, and that sharing is not modelled.
- The `schedule` library's time checks are not modelled: `at("25:00")` raises in the library, and non-positive intervals are not rejected.
- The `schedule` library's next-run computation is a parameter.
- The `manage_scheduler.py` command-line wrapper and the scheduler's own `main` are not part of this model.
- The `run-once` endpoint is left out. It only queues `run_scraping_task` as a background task, which `RunScrapingTask` already models.
- The `configs` endpoint is left out. It returns constant descriptive strings.
- The `logging` and `error_handling` sections of the configurations are never read, so they are not modelled.
- The logs endpoint's `level` parameter is never used, so it is not modelled. Its 500 reply on a read error is not modelled.
- The frontend's `lastUpdate` and `bannerImage` fields are not modelled. The `lastUpdate` date formatting needs the clock.
- JavaScript's `toLowerCase` is modelled as ASCII lower-casing.
- CountryView.ExtractTags: its own contract states only the bounds. Which tags are chosen is stated by `ExtractTagsOrder` and `ExtractTagsSoundComplete`.
- DateParserFacts.ParseDateByIso: holds for the date-only form only. `datetime.fromisoformat` also accepts a date followed by any one separator character and a time, such as "2025-07-11T09:30", on every Python version; this model gives such texts no date.
- DateParserFacts.IsoBranchIsCanonical: holds only because time-suffixed texts give no date in this model. In the source "2025-07-11T09:30" takes the ISO branch and parses, and only its first ten characters are the date's rendering.
- TestScraper.PreviewOf: the published date of a time-suffixed date text such as "2025-07-11T09:30" is `None` in this model, whereas the source's `datetime.fromisoformat` parses it.
- DateParser.FromIsoFormat: covers the date-only `YYYY-MM-DD` form only. `datetime.fromisoformat` also accepts that date followed by one separator character and a time, such as "2025-07-11T09:30" or "2025-07-11 09:30:00", on every Python version; this model gives such texts no date, so listings dated that way are treated as undated.
- PyText.ParseInt: reads ASCII digits only. Python's `int()` also accepts any other Unicode decimal digit, so an interval such as "３h" (a full-width three) makes a three-hour job in the source but raises in this model.
- ArticleStore.ArticleDb.TouchSource: always stamps the id. The source's `UPDATE sources SET last_scraped = ? WHERE id = ?` changes nothing when no `sources` row has that id; the model assumes every configured position has a row.
- IngestionFacts.IngestStamps: assumes a `sources` row for every configured position, as for `TouchSource`, and one time `now` for the whole run. The source calls `datetime.utcnow()` once per completed source, so its stamps differ by the time the run took between them.
- IngestionFacts.SourceStep: assumes a `sources` row with the source's position as id, and takes the run's one time `now` for that source's `datetime.utcnow()` call.
- Ingestion.FetchAndStore: assumes a `sources` row for every configured position, and stamps every completed source with the one time `now` where the source calls `datetime.utcnow()` once per source.

## Findings

| source | as written | input that shows it | evidently intended | confidence | as-written member | corrected member |
|---|---|---|---|---|---|---|
| backend/app/api/routers/scheduler.py:95-99 | restart calls `stop()`, whose join waits 5 s while the loop sleeps 60 s, then `start()`, which returns at once while the old thread is alive | restart a running scheduler while its loop is asleep: the reply is "Scheduler restarted successfully", yet the old thread exits on waking and no new one was started | the scheduler is running after a successful restart | not executed | SchedulerApi.RestartCanLeaveStopped | SchedulerApi.RestartSchedulerJoined |
| backend/app/api/routers/scheduler.py:174 | `log_lines[-lines:] if len(log_lines) > lines else log_lines` | `lines=0` returns every line; `lines=-2` drops the first two lines | at most `lines` lines, none for a non-positive count | not executed | SchedulerApi.LogTailNonPositive | SchedulerApi.LogTailClamped |
| backend/app/api/routers/scheduler.py:43 | the status handler calls `schedule_jobs()` to list the jobs | a status request under the default configuration (`run_on_startup` true) runs a full three-day scrape and re-registers every job | the status is read without side effects | not executed | SchedulerApi.GetSchedulerStatus | SchedulerApi.GetSchedulerStatusReadOnly |
