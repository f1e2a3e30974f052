# Job-search pipeline, modelled in Dafny

The system is a personal job-search assistant. It works in these stages:

- It scrapes job postings from several sources (Indeed feeds, AngelList and
  Glassdoor listings, a LinkedIn fallback). When every source comes back
  empty it generates sample postings instead.
- It removes duplicate postings (same lower-cased title and company) and keeps
  only the postings a rule-based classifier takes for senior data roles.
- It stores the postings in a SQLite database together with compatibility
  analyses, job applications and uploaded resumes.
- It asks a language model to score each posting against the candidate's
  parsed resume. When the model's reply cannot be decoded, a keyword-counting
  fallback scores the posting instead.
- A small web application runs this pipeline and lets the user page through
  the stored postings, review them one at a time and apply bulk actions.
- An applicator drives LinkedIn's Easy-Apply form for the recommended
  postings.

This project models the decision logic of those stages and proves what they
promise. Each stage is one module:

- `JobScraper` (`scraper.dfy`): the source chain, de-duplication, the
  classifier, URL completion, source metadata, the Indeed title split and
  the sample generators. The loops are methods proved against the functions
  `Dedup` and `Keep`.
- `Store` (`store.dfy`): the database as a class `DatabaseManager` with one
  map per table and one auto-increment counter per table. Queries are
  functions over that state; inserts, updates and deletes are methods whose
  `ensures` give the whole new state. `Valid()` holds the table invariants:
  hashes are unique, ids lie below their counters, at most one resume is
  active.
- `GeminiMatcher` (`matcher.dfy`): the fallback scorer, the cleaning of
  code fences around a reply, selection and stable sorting of matches, and
  batching. `Prompts` (`prompts.dfy`) assembles the two prompt texts.
- `WebApp` (`webapp.dfy`): the save-then-analyse loop of `run_job_search`
  with its quota flag and counters, the review page's pagination, review
  actions and bulk actions. They run against a `DatabaseManager`.
- `ResumeParser` (`resume.dfy`): section finding, summary, name, skills,
  experience, education and certifications over `split('\n')`, and the
  choice of extractor by file suffix.
- `Config` (`config.dfy`): a `ConfigManager` class over a nested value
  (`Value` = null, bool, integer, string, list or dict, as YAML loads them). It covers dotted-key lookup, validation
  of the required keys, environment overrides and resolution of relative
  paths, which updates the stored configuration in place.
- `Applicator` (`applicator.dfy`): result counting and the pause schedule of
  `apply_to_jobs`, the bounded Easy-Apply step machine, the rules that fill
  text fields (over an `array` of fields, filled in place) and dropdowns,
  and the application summary.
- Shared modules:
  - `Text`: ASCII models of Python's string operations.
  - `Lists`: filtering, stable descending sort, sorted-unique.
  - `Records`: jobs as `map<string, string>`, with `Get` for `dict.get`.
  - `Wrappers`: `Option` and `Result`.

Everything outside the program is a parameter:

- the network and the browser: the lists a source returns, and the buttons
  and fields a page shows;
- the language model and `json.loads`: a `Generation` value and a `parse`
  function;
- `random`: a stream `rand: nat -> nat` with a draw index;
- the clock: a `now` value, and a `daysAgo` formatter for dates;
- the file system and environment variables: maps and predicates.

## Model

| member | source | states |
|---|---|---|
| JobScraper.RemoveDuplicates | src/job_scraper.py:527-541 | The loop with the `seen_jobs` set returns `Dedup(jobs)`. No two kept jobs share a `lower(title)_lower(company)` key, and the kept keys are exactly the input's keys. |
| JobScraper.KeysMember | src/job_scraper.py:534 | A key is among a list's keys iff some job of the list has it. |
| JobScraper.DedupKeys | src/job_scraper.py:527-541 | Every key of the input survives de-duplication, and no other key appears. |
| JobScraper.DedupUnique | src/job_scraper.py:534-539 | No two jobs of the result have the same key. |
| JobScraper.DedupOfUnique | src/job_scraper.py:527-541 | A list without repeated keys comes back unchanged. |
| JobScraper.DedupIdempotent | src/job_scraper.py:527-541 | De-duplicating twice is the same as de-duplicating once. |
| JobScraper.DedupSubsequence | src/job_scraper.py:527-541 | The result is a subsequence of the input: order is kept and nothing is invented. |
| JobScraper.DedupSnoc | src/job_scraper.py:533-539 | One more job is appended iff its key is not among the keys seen so far. |
| JobScraper.DedupIsFirstOccurrences | src/job_scraper.py:531-539 | De-duplication keeps exactly the first job of each key, in input order (first seen wins). |
| JobScraper.FirstOfKeyIsNewKey | src/job_scraper.py:534-536 | A job is the first of its key iff no earlier job has that key. |
| JobScraper.InSomeFieldCombined | src/job_scraper.py:441-447 | A phrase found in any one lower-cased field is found in the combined text. |
| JobScraper.JuniorRejected | src/job_scraper.py:484-493 | A junior indicator in the title, description or requirements rejects the job, whatever else it says. |
| JobScraper.CueAccepted | src/job_scraper.py:450-496 | With no junior indicator, a data keyword plus a senior or experience indicator accepts the job. |
| JobScraper.TitleKeywordAccepted | src/job_scraper.py:498-501 | With no junior indicator, a data keyword in the title alone accepts the job. |
| JobScraper.AcceptedHasDataKeyword | src/job_scraper.py:441-501 | An accepted job has a data keyword and no junior indicator in its combined text. |
| JobScraper.JuniorDataAnalystRejected | src/job_scraper.py:484-493 | A "Junior Data Analyst" title is rejected. |
| JobScraper.SeniorDataEngineerAccepted | src/job_scraper.py:450-496 | "Senior Data Engineer" with requirements "5+ years" is accepted when no junior indicator occurs. |
| JobScraper.DataScientistAccepted | src/job_scraper.py:498-501 | A "Data Scientist" title is accepted with no seniority cue when no junior indicator occurs. |
| JobScraper.FilterSeniorDataRoles | src/job_scraper.py:505-525 | The filter loop returns exactly the accepted jobs, in input order. |
| JobScraper.EnsureFullUrl | src/job_scraper.py:543-563 | The result is empty iff the URL is, and it always ends with the URL (only a prefix is ever added). |
| JobScraper.EnsureFullUrlCases | src/job_scraper.py:554-563 | A URL starting with 'http', a URL not starting with '/', and any URL with an empty base are returned unchanged. |
| JobScraper.EnsureFullUrlIdempotent | src/job_scraper.py:543-563 | Completing a completed URL changes nothing, for any base that does not itself start with '/'. |
| JobScraper.SourceMetadata | src/job_scraper.py:565-646 | Unrecognised URL and name give the given name with the default icon and colour; otherwise the result is the canonical metadata of one site. |
| JobScraper.UrlTakesPrecedence | src/job_scraper.py:576-605 | A recognised URL decides alone; the source name plays no part. |
| JobScraper.LinkedInNameOrigin | src/job_scraper.py:607-612 | The name "LinkedIn" is recognised as LinkedIn. |
| JobScraper.IndeedNameOrigin | src/job_scraper.py:613-618 | The name "Indeed" is recognised as Indeed. |
| JobScraper.GlassdoorNameOrigin | src/job_scraper.py:619-624 | The name "Glassdoor" is recognised as Glassdoor. |
| JobScraper.AngelListNameOrigin | src/job_scraper.py:625-630 | The name "AngelList" is recognised as AngelList. |
| JobScraper.CareerPageNameOrigin | src/job_scraper.py:631-637 | The name "Company Career Page" is recognised as a career page. |
| JobScraper.NameOriginOfName | src/job_scraper.py:607-637 | Every canonical source name is recognised as its own site. |
| JobScraper.SourceMetadataIdempotent | src/job_scraper.py:565-646 | Looking up the metadata of its own returned name gives the same metadata. |
| JobScraper.IndeedTitleSplit | src/job_scraper.py:744-749 | Without " - " the title is kept with 'Unknown Company'; with it, both parts are stripped. |
| JobScraper.SeparatorAfterTitle | src/job_scraper.py:747 | The first " - " in "T - C" is the one right after T when none starts inside T. |
| JobScraper.IndeedTitleSplitRoundTrip | src/job_scraper.py:744-749 | Splitting "T - C" gives back (T, C) for stripped T and C with no separator inside them. |
| JobScraper.IndeedJob | src/job_scraper.py:736-776 | An Indeed item yields a job with a description of at most 500 characters and the source the metadata lookup gives for its link. |
| JobScraper.IndeedJobSource | src/job_scraper.py:765-773 | An item whose link names no known site is labelled 'Indeed' with the search icon. |
| JobScraper.RandInt | src/job_scraper.py:855-857 | A `random.randint(lo, hi)` draw lies in [lo, hi]. |
| JobScraper.Choice | src/job_scraper.py:851-852 | A `random.choice(xs)` draw is an element of xs. |
| JobScraper.LinkedInSampleJob | src/job_scraper.py:1107-1118 | A LinkedIn sample has source LinkedIn, the title-cased keyword as title, the given location and a listed company. |
| JobScraper.AngelSampleJob | src/job_scraper.py:842-862 | An AngelList sample has title "<Keyword> - Startup", a listed company and a listed location. |
| JobScraper.GlassdoorSampleJob | src/job_scraper.py:864-884 | A Glassdoor sample has title "Senior <Keyword>", the given location and a listed company. |
| JobScraper.GenerateLinkedInSampleJobs | src/job_scraper.py:1097-1121 | The loops give min(3, keywords)·min(2, locations)·2 LinkedIn jobs, each titled after a keyword. |
| JobScraper.GenerateAngelListSampleJobs | src/job_scraper.py:842-862 | Two AngelList jobs for the keyword. |
| JobScraper.GenerateGlassdoorSampleJobs | src/job_scraper.py:864-884 | Two Glassdoor jobs for the keyword at the given location. |
| JobScraper.FixedJob | src/job_scraper.py:1136-1205 | A fixed sample role is labelled as a company career page. |
| JobScraper.FixedSampleJobs | src/job_scraper.py:1133-1205 | There are six fixed sample roles. |
| JobScraper.NetflixSampleRejected | src/job_scraper.py:1136-1146 | The fixed Netflix "Senior Data Scientist" sample mentions "junior", so the classifier rejects it. |
| JobScraper.JuniorInNetflixTail | src/job_scraper.py:1140 | The Netflix sample's description contains "junior" once lower-cased. |
| JobScraper.GenerateSampleJobs | src/job_scraper.py:1123-1207 | The sample list has the LinkedIn sample count plus ten jobs. |
| JobScraper.ScrapeAngelList | src/job_scraper.py:790-821 | Two AngelList jobs for each of the first two keywords whose search page is reachable. |
| JobScraper.ScrapeGlassdoor | src/job_scraper.py:823-840 | Two Glassdoor jobs per pair of the first two keywords and locations. |
| JobScraper.ScrapeAlternativeSources | src/job_scraper.py:682-712 | Indeed's jobs come first, followed by the AngelList and Glassdoor counts. |
| JobScraper.ScrapeLinkedInFallback | src/job_scraper.py:886-906 | Public results when there are any, else the LinkedIn samples. |
| JobScraper.CollectJobs | src/job_scraper.py:56-79 | `Collected`: the alternative list starts with the Indeed jobs and has `AlternativeCount` jobs. The LinkedIn fallback runs iff that count is below `max_jobs_per_day`, and gives the public results or the LinkedIn samples. The samples (LinkedIn sample count + 10) replace the list iff it is empty. The list is never empty. |
| JobScraper.CollectedSamplesIff | src/job_scraper.py:59-78 | The samples are used iff the alternative sources found nothing and the fallback either did not run or found nothing and made no LinkedIn samples: a condition on the inputs alone. |
| JobScraper.ScrapeJobs | src/job_scraper.py:47-87 | The stages of the source chain are as `CollectJobs` states them. The result is the classifier's order-preserving filter of the de-duplicated collected list, and no two of its jobs share a title/company key. |
| JobScraper.KeepUnique | src/job_scraper.py:81-84 | Filtering a list without repeated keys keeps it without repeated keys. |
| Store.NewPosting | src/database_manager.py:146-165 | A new posting carries the job's hash, review status 'new' with no notes or review time, source defaulting to 'Unknown', and exactly the job's detail columns. |
| Store.CountIdsIsCardinality | src/database_manager.py:545-557 | Counting ids one by one is the size of the set of matching ids (`COUNT(*)`). |
| Store.CountIdsMonotone | src/database_manager.py:460-464 | A weaker condition counts at least as many rows. |
| Store.CountIdsDisjoint | src/database_manager.py:468-476 | Two exclusive conditions count no more rows together than a condition both imply. |
| Store.FindHash | src/database_manager.py:171 | The lookup by hash finds a row with that hash, or there is none. |
| Store.LatestActive | src/database_manager.py:437-440 | The active resume with the latest upload time, or None exactly when no resume is active. |
| Store.SourcesOf | src/database_manager.py:569 | The listed sources are exactly the postings' sources. |
| Store.ScoresOf | src/database_manager.py:511 | A posting has join scores only if some analysis refers to it. |
| Store.JoinRows | src/database_manager.py:511 | LEFT JOIN: one row per analysis of the posting, or one row when it has none. |
| Store.Joined | src/database_manager.py:505-524 | Every listing row is a stored posting that matches both filters ('all' meaning no constraint). |
| Store.ScoresOfAtMostOne | src/database_manager.py:511 | With at most one analysis per posting, the join gives each posting at most one score. |
| Store.CountRowsOf | src/database_manager.py:505-524 | Never more rows of one posting than rows in the listing. |
| Store.JoinedRowsOf | src/database_manager.py:505-524 | Every stored posting that matches both filters is listed: once when it has no analysis, and otherwise once per analysis; other ids are not listed. |
| Store.JoinedLength | src/database_manager.py:505-557 | With at most one analysis per posting, the listing has exactly as many rows as `get_jobs_count` counts. |
| Store.DoubleAnalysisListedTwice | src/database_manager.py:198 | A posting analysed twice is listed twice but counted once, since the analysis insert always appends. |
| Store.PageStart | src/database_manager.py:525 | OFFSET starts within the rows; a negative offset is read as none. |
| Store.Page | src/database_manager.py:525 | `LIMIT ? OFFSET ?` gives at most `limit` consecutive rows starting at the offset. |
| Store.PageSlice | src/database_manager.py:525 | For non-negative limit and offset the page is the slice [offset, offset + limit), clipped. |
| Store.FirstPagesArePrefix | src/database_manager.py:525 | Consecutive pages tile the listing: the first k pages are its first k·limit rows. |
| Store.PageOfSorted | src/database_manager.py:525 | A page of a listing sorted by `scraped_at` descending is sorted too. |
| Store.DatabaseManager.constructor | src/database_manager.py:41-113 | A new database has empty tables and every counter at 1. |
| Store.DatabaseManager.SaveJobPosting | src/database_manager.py:132-180 | A stored hash inserts nothing and returns the stored id. A new hash with title and company inserts `NewPosting` under the next id. A job without title or company inserts nothing and gets None. Nothing else changes. |
| Store.DatabaseManager.SaveJobPostingTwice | src/database_manager.py:146-176 | Saving two jobs with the same title and company (up to case) returns the same id twice and adds at most one row. |
| Store.DatabaseManager.SaveJobAnalysis | src/database_manager.py:182-219 | An analysis row is always appended under the next id, and true is returned. |
| Store.DatabaseManager.CreateApplication | src/database_manager.py:277-307 | A new application has status 'approved', no response and the given letter and notes; the job is not checked. |
| Store.DatabaseManager.UpdateApplicationStatus | src/database_manager.py:309-354 | Status and update time always change. `applied_at` changes only for 'applied'. The response columns change only for a truthy response type, notes only for truthy notes. True iff the id exists. |
| Store.DatabaseManager.SetReviewStatus | src/database_manager.py:586-594 | The shared UPDATE sets status, notes (even None) and review time on an existing posting and touches nothing else. |
| Store.DatabaseManager.MarkJobReviewed | src/database_manager.py:572-598 | From any status: 'reviewed', the notes overwritten, the review time stamped; true iff the id exists. |
| Store.DatabaseManager.MarkJobInterested | src/database_manager.py:600-626 | The same with 'interested'. |
| Store.DatabaseManager.MarkJobNotInterested | src/database_manager.py:628-654 | The same with 'not_interested'. |
| Store.DatabaseManager.DeleteJob | src/database_manager.py:656-680 | The posting and exactly its analyses and applications are removed; true iff the posting existed. |
| Store.DatabaseManager.SaveResume | src/database_manager.py:393-428 | Every earlier resume is deactivated. The new one is inserted active and is the only active resume, so `get_active_resume` returns it. |
| Store.DatabaseManager.GetActiveResume | src/database_manager.py:430-450 | An active stored resume, or None exactly when no resume is active. |
| Store.DatabaseManager.GetAllJobs | src/database_manager.py:488-529 | At most `limit` rows, sorted by `scraped_at` descending, each a stored posting matching both filters. |
| Store.DatabaseManager.GetJobsCount | src/database_manager.py:531-557 | The number of postings matching both filters. |
| Store.DatabaseManager.JobsCountAgainstListing | src/database_manager.py:488-557 | The count covers every matching posting, and equals the listing's length when no posting has two analyses. |
| Store.DatabaseManager.GetJobSources | src/database_manager.py:559-570 | The distinct sources, strictly ascending. |
| Store.DatabaseManager.GetDashboardStats | src/database_manager.py:452-486 | High-score matches (≥ 80) never exceed positive-score matches, and applied plus pending ('approved') never exceed the application count. |
| Store.DatabaseManager.TotalApplicationsIsRowCount | src/database_manager.py:468 | The dashboard's application total is the size of the applications table. |
| GeminiMatcher.KeywordHits | src/gemini_matcher.py:115-116 | A keyword counts once however often it occurs, so the count is at most the number of keywords. |
| GeminiMatcher.PositiveHits | src/gemini_matcher.py:112-115 | At most five positive keywords are found. |
| GeminiMatcher.NegativeHits | src/gemini_matcher.py:113-116 | At most five negative keywords are found. |
| GeminiMatcher.Clamp100 | src/gemini_matcher.py:121 | `max(0, min(100, v))` lies in [0, 100] and is v inside that range. |
| GeminiMatcher.FallbackScore | src/gemini_matcher.py:118-121 | The fallback score always lies in [0, 100]. |
| GeminiMatcher.FallbackAnalysis | src/gemini_matcher.py:95-131 | All seven fields are present, the four lists each hold their one placeholder, and it recommends iff the score is at least 50. |
| GeminiMatcher.FallbackRecommendation | src/gemini_matcher.py:119-127 | Recommended iff the score is ≥ 50; always so without negative keywords, never so with only negative ones. |
| GeminiMatcher.FallbackTwoPositives | src/gemini_matcher.py:112-127 | Two positive and no negative keywords score 80, recommended. |
| GeminiMatcher.FallbackOneEach | src/gemini_matcher.py:112-127 | One positive and one negative keyword score 55, recommended. |
| GeminiMatcher.StripFences | src/gemini_matcher.py:158-164 | The cleaned reply is stripped, and a reply that does not start with a fence is only stripped. |
| GeminiMatcher.RemoveAllSkip | src/gemini_matcher.py:162-164 | `replace(p, '')` passes over a prefix with no character that starts p. |
| GeminiMatcher.RemoveAllBetween | src/gemini_matcher.py:162 | Removing a pattern from "open + x + close" leaves x followed by what removal leaves of close. |
| GeminiMatcher.FencedRoundTrip | src/gemini_matcher.py:163-164 | A backtick-free text between '```' fence lines comes back unchanged. |
| GeminiMatcher.JsonFencedRoundTrip | src/gemini_matcher.py:161-162 | A backtick-free text between '```json' and '```' comes back unchanged. |
| GeminiMatcher.UnfencedUnchanged | src/gemini_matcher.py:158-164 | A clean, unfenced reply is passed to the decoder as it is. |
| GeminiMatcher.FencedIsStripped | src/gemini_matcher.py:158-164 | A reply fenced by backticks is already stripped, so `strip()` leaves it as it is. |
| GeminiMatcher.JsonFenceIsFence | src/gemini_matcher.py:159-163 | A reply starting with '```json' also starts with '```', so it takes the first branch. |
| GeminiMatcher.AnalyzeCompatibility | src/gemini_matcher.py:133-177 | A failed call or an empty reply gives None; a decodable cleaned reply gives the decoded analysis unchanged; otherwise the fallback runs on the raw reply. |
| GeminiMatcher.AnalyzeNoneIff | src/gemini_matcher.py:151-177 | None exactly for a failed call or an empty reply; an undecodable reply still gets a score in [0, 100]. |
| GeminiMatcher.Candidates | src/gemini_matcher.py:69-87 | The loop keeps at most the input's jobs. |
| GeminiMatcher.CandidatesMember | src/gemini_matcher.py:74-79 | A job is kept, carrying its analysis, iff its analysis exists with score > 0. |
| GeminiMatcher.CandidatesAppend | src/gemini_matcher.py:69-87 | Selection over two concatenated lists is the concatenation of the selections. |
| GeminiMatcher.MatchResultSorted | src/gemini_matcher.py:90 | The result is ordered by non-increasing score. |
| GeminiMatcher.MatchResultMember | src/gemini_matcher.py:69-90 | The result holds exactly the jobs with a positive-score analysis. |
| GeminiMatcher.MatchResultStable | src/gemini_matcher.py:90 | Jobs with equal scores keep their input order (Python's sort is stable). |
| GeminiMatcher.MatchJobs | src/gemini_matcher.py:50-93 | `match_jobs` returns the stably sorted selection, and [] for no jobs. |
| GeminiMatcher.Chunks | src/gemini_matcher.py:362-363 | Every chunk is non-empty and at most `batch_size` long. |
| GeminiMatcher.ChunksSpec | src/gemini_matcher.py:362-363 | There are ceil(n / size) chunks, and together they are the input. |
| GeminiMatcher.BatchStep | src/gemini_matcher.py:362-367 | One turn: the matches of the chunk at i, then those of the rest. |
| GeminiMatcher.BatchSameMatches | src/gemini_matcher.py:342-373 | Batching selects the same matches (as a multiset) as one `match_jobs` call. |
| GeminiMatcher.MatchResultSplit | src/gemini_matcher.py:69-90 | The matches of a list are those of its two halves together. |
| GeminiMatcher.BatchOneChunk | src/gemini_matcher.py:362-367 | With a single chunk, batching is `match_jobs`. |
| GeminiMatcher.MatchResultSingle | src/gemini_matcher.py:74-79 | One job with a positive score is matched, carrying its analysis. |
| GeminiMatcher.BatchTwoSingles | src/gemini_matcher.py:362-367 | With size 1, two jobs are matched one at a time, in order. |
| GeminiMatcher.BatchNotGloballySorted | src/gemini_matcher.py:366-367 | Across chunks the result is not sorted: a score of 10 in the first chunk stays ahead of 90 in the second. |
| GeminiMatcher.MatchInBatches | src/gemini_matcher.py:360-373 | The chunk loop returns the per-chunk results concatenated in chunk order. |
| GeminiMatcher.BatchAnalyzeJobs | src/gemini_matcher.py:342-373 | [] for no jobs; an error for step 0 (`range` raises); [] for a negative size; the batched result otherwise. |
| Prompts.JoinContains | src/gemini_matcher.py:205-262 | Every part of a joined text occurs in it. |
| Prompts.FilledLines | src/gemini_matcher.py:205-262 | `strip()` removes only the framing newlines, so the prompt is its lines joined by '\n' and contains each of them. |
| Prompts.LinesInTemplate | src/gemini_matcher.py:205-262 | The filled-in lines of a template occur in the prompt. |
| Prompts.ExperienceTitles | src/gemini_matcher.py:192 | One title per experience entry, in order. |
| Prompts.AnalysisPromptCandidate | src/gemini_matcher.py:191-211 | The analysis prompt carries the name (default 'Candidate'), the skills joined by ", " and the experience titles joined by "; ". |
| Prompts.AnalysisPromptJob | src/gemini_matcher.py:199-217 | The analysis prompt carries title, company and location, defaulting to 'Unknown Title', 'Unknown Company' and 'Unknown Location'. |
| Prompts.AnalysisPromptJobText | src/gemini_matcher.py:200-220 | The analysis prompt carries the description and the requirements, '' when missing. |
| Prompts.Suggestions | src/gemini_matcher.py:304-306 | No analysis, or one without suggestions, gives []. |
| Prompts.SuggestionsText | src/gemini_matcher.py:308-310 | The line is empty iff there are no suggestions; otherwise it starts "Key points to highlight: ". |
| Prompts.DescriptionExcerpt | src/gemini_matcher.py:324 | The first 500 characters of the description (or '') followed by "...". |
| Prompts.CoverLetterPromptHeader | src/gemini_matcher.py:297-317 | The cover-letter prompt carries name, title and company with their defaults. |
| Prompts.CoverLetterPromptBackground | src/gemini_matcher.py:319-321 | The cover-letter prompt carries the skills joined by ", " and the experience titles joined by "; ". |
| Prompts.CoverLetterPromptDetails | src/gemini_matcher.py:323-326 | The cover-letter prompt carries the description excerpt and the line of points to highlight. |
| WebApp.OuterQuotaImpliesQuota | web/app.py:389-394 | Every message the outer handler takes for a quota error, the loop does too. |
| WebApp.Status429OnlyInLoop | web/app.py:392-393 | A bare "429" is a quota error in the loop but not in the outer handler (431-432). |
| WebApp.HitsNone | web/app.py:368-402 | No job meeting a condition means a count of zero. |
| WebApp.RunCountersBounds | web/app.py:363-385 | `saved_jobs` counts the saves that returned an id, and new matches plus errors never exceed it, which never exceeds the number of jobs. |
| WebApp.QuotaFlagIff | web/app.py:387-394 | The quota flag is set iff some saved job's analysis raised a quota error. |
| WebApp.CountsWithoutQuota | web/app.py:376-388 | Without the flag, every saved job was analysed: the counters count the saved jobs with a new match and with an error. |
| WebApp.QuotaShortCircuit | web/app.py:370-376 | Once the flag is set, no later job is analysed: matches and errors stay as they were and the flag stays set. |
| WebApp.MatcherNeverSetsQuota | web/app.py:377-394 | With the scorer's outcomes (it catches every error), the quota flag is never set and no error is counted. |
| WebApp.SavedFlags | web/app.py:370-373 | One save outcome per scraped job. |
| WebApp.SavedFlagsIff | web/app.py:370-372 | A save returns an id iff the job is savable, its key was stored before the run, or an earlier job of the run stored it. |
| WebApp.FindHashIsMembership | src/database_manager.py:171 | The hash lookup succeeds iff the hash is stored. |
| WebApp.HashesInsert | src/database_manager.py:150-165 | An insert adds exactly its hash to the stored hashes. |
| WebApp.InsertedContents | src/database_manager.py:149-168 | Inserting rows under consecutive ids from `start` adds exactly those keys, puts `rows[i]` under `start + i`, and keeps every old row. |
| WebApp.NewPostings | web/app.py:368-373 | A run inserts at most one posting per scraped job. |
| WebApp.NewPostingsKeys | src/database_manager.py:132-166 | The hashes a run inserts are exactly the savable keys that were not stored before it. |
| WebApp.NewPostingsDistinct | src/database_manager.py:132-166 | A run inserts each hash at most once, even when two scraped jobs share it. |
| WebApp.Matched | web/app.py:374-385 | A pass stores an analysis only for a saved job, while the quota flag is clear, when the scorer returned it with a positive score; that is exactly when `new_matches` goes up. |
| WebApp.MatchesFrom | web/app.py:368-385 | Every analysis the run stores has a positive score and belongs to one of the scraped jobs. |
| WebApp.DoneStep | web/app.py:368-385 | One pass appends its match, if any, to those found so far, and the count of matches found stays equal to `new_matches`. |
| WebApp.RowsAgreeMatchRows | src/database_manager.py:182-219 | Rows that point at the postings with the matched jobs' hashes are exactly `MatchRows`, because a hash has one posting. |
| WebApp.RunStep | web/app.py:368-405 | One pass saves the posting and returns its id when the save gave one. A new savable job adds exactly `NewPosting(job, now)` under the next posting id; otherwise no posting changes. An analysis row `(id, analysis, now)` is added under the next analysis id exactly when `Matched` says the pass counts a new match; otherwise the analyses are unchanged. The counters take one `Step`. |
| WebApp.SaveOne | src/database_manager.py:132-180 | The save returns an id iff the key was stored or the job is savable, and the id is that of a posting with the job's hash. A new savable job is inserted as `NewPosting(job, now)` under the next id; otherwise the postings are unchanged. The analyses are unchanged. |
| WebApp.RunJobSearch | web/app.py:342-441 | No parsed resume: redirect and no posting or analysis changes. No jobs: likewise. Otherwise the counters are `RunCounters` of the save outcomes, and the stored hashes gain exactly the savable keys. The postings gain `NewPostings(jobs, old hashes)` under consecutive ids. The analyses gain one row per element of `Matches(...)`, in order, under consecutive ids, and there are `newMatches` of them. |
| WebApp.SaveAndAnalyse | web/app.py:363-405 | The loop's counters are `RunCounters` of the save outcomes. The postings table becomes the old one plus `NewPostings(jobs, old hashes)` under consecutive ids. The analysis table becomes the old one plus one row per element of `Matches(...)`, in order. Each row holds the id of the posting with that job's hash, the analysis and the run's time. There are exactly `newMatches` such rows, and no stored row changes. |
| WebApp.RunFeedback | web/app.py:407-427 | "Nothing saved" iff no job was saved; the success message iff jobs were saved and matched. |
| WebApp.NoQuotaNoticeFromMatcher | web/app.py:408-419 | With the scorer's outcomes, the quota notice is never shown. |
| WebApp.TotalPages | web/app.py:463 | `max(1, ceil(total / 100))`: at least one page, enough pages for every counted job, and no empty last page. |
| WebApp.LowPageIsFirstPage | web/app.py:458 | Page numbers of 1 or less show the first page (SQLite reads a negative offset as none). |
| WebApp.ReviewJobs | web/app.py:452-481 | As written: at most 100 rows, the posting count as total, and enough pages for that count. |
| WebApp.ReviewPagesCoverListing | web/app.py:457-463 | With at most one analysis per posting, pages 1..total_pages show the whole listing. |
| WebApp.ScoresOfLength | src/database_manager.py:511 | Two analyses of one posting give it two join rows. |
| WebApp.ScoresOfNonEmpty | src/database_manager.py:511 | One analysis of a posting gives it a score row. |
| WebApp.JoinedExceedsCount | src/database_manager.py:505-557 | A matching posting with two analyses makes the listing longer than the count. |
| WebApp.JoinedAtLeastCount | src/database_manager.py:505-557 | The listing is never shorter than the count. |
| WebApp.ReviewPagesMissRows | web/app.py:461-463 | As written, when a matching posting has two analyses and the count fills whole pages, some listing row lies on no page. |
| WebApp.PagesMissRows | web/app.py:463 | Rows beyond a page-filling count are on no page. |
| WebApp.ReviewJobsByRows | web/app.py:461-463 | Counting listing rows: at most 100 rows per page and enough pages for every row. |
| WebApp.ReviewPagesByRowsCoverListing | web/app.py:457-463 | Counting rows, pages 1..total_pages show the whole listing whatever the analyses, and each page is what `get_all_jobs` returns for it. |
| WebApp.ReviewStatusFor | web/app.py:506-523 | Only 'interested', 'not_interested' and 'mark_reviewed' map to a status: the first two to themselves, the last to 'reviewed'. |
| WebApp.UpdateJobReview | web/app.py:495-528 | A recognised action updates the posting as its store call does (true iff it exists); any other action changes nothing; a JSON request always gets success. |
| WebApp.BulkOpOf | web/app.py:544-555 | Exactly four action names are recognised. |
| WebApp.BulkSuccesses | web/app.py:541-556 | The success count is at most the number of selected ids. |
| WebApp.SuccessesFromSlice | web/app.py:543-556 | Counting from index i is counting over the ids from i on. |
| WebApp.BulkSuccessesStep | web/app.py:543-556 | The count is the first id's success plus the count over the rest, after a delete removed it. |
| WebApp.BulkMarkCount | web/app.py:543-552 | A marking action counts every selected id that exists, as often as it is selected. |
| WebApp.BulkDeleteCount | web/app.py:553-555 | Deleting counts each existing selected posting once, however often it is selected. |
| WebApp.MarkOne | web/app.py:544-552 | One marking call without notes: the posting is marked iff it exists. |
| WebApp.MarkedWithinStep | web/app.py:543-552 | Marking one more id keeps "exactly the done ids are marked". |
| WebApp.MarkedWithinAll | web/app.py:543-552 | Once every id is done, exactly the selected postings are marked and no posting is added or removed. |
| WebApp.MarkTurn | web/app.py:543-552 | One turn of the marking loop marks the id when it exists. |
| WebApp.BulkMark | web/app.py:541-556 | The marking loop counts `BulkSuccesses`, marks exactly the selected postings and leaves the others unchanged. |
| WebApp.RowsWithoutStep | src/database_manager.py:671-673 | Deleting one more posting with its analyses and applications keeps "exactly the done postings are gone". |
| WebApp.BulkDeleteJobs | web/app.py:553-556 | The delete loop removes exactly the selected postings and their analyses and applications, and counts `BulkSuccesses`. |
| WebApp.BulkJobAction | web/app.py:532-562 | An empty selection or unknown action changes nothing and counts 0. Otherwise each selected id gets the action in order, and the count is the number of ids whose call returned true. A marking action changes only the selected postings: analyses, applications, resumes and id counters stay as they were. 'delete' removes the selected postings with every analysis and application of theirs (`delete_job`, src/database_manager.py:656-680), keeps every other row unchanged, and leaves the id counters alone. |
| ResumeParser.Lines | src/resume_parser.py:213 | `split('\n')` gives at least one line. |
| ResumeParser.StripAll | src/resume_parser.py:201 | Each line stripped, in order. |
| ResumeParser.NonBlankStripped | src/resume_parser.py:297 | The stripped non-blank lines: none empty, each stripped. |
| ResumeParser.NonBlankStrippedMember | src/resume_parser.py:297 | A string is kept iff it is non-empty and some line strips to it. |
| ResumeParser.SectionLinesNone | src/resume_parser.py:343-361 | No section iff no lower-cased line contains a keyword. |
| ResumeParser.SectionLinesSome | src/resume_parser.py:347-359 | A section is the lines after the first keyword line, up to the end or the first line that ends a section. |
| ResumeParser.FindSection | src/resume_parser.py:343-361 | The two loops compute `SectionOf`. |
| ResumeParser.SummaryLinesAfter | src/resume_parser.py:218-223 | At most four lines, all after line i. |
| ResumeParser.LeadingLines | src/resume_parser.py:219-223 | The lines taken stay within the scanned range. |
| ResumeParser.LeadingLinesSpec | src/resume_parser.py:219-223 | The lines taken are the stripped lines from j on, none blank, stopping at the range end or the first blank line. |
| ResumeParser.FirstYield | src/resume_parser.py:210-228 | The first keyword line with a non-blank line after it: it yields, and no line before it does. |
| ResumeParser.SummaryAtFirst | src/resume_parser.py:210-228 | The scan returns the lines of the first yielding keyword line, joined by spaces, or "" when there is none. |
| ResumeParser.SummarySpec | src/resume_parser.py:210-228 | The summary is "" iff no keyword line has a non-blank line after it. Otherwise it is the lines of a yielding keyword line before which no keyword line yields: one to four stripped lines, joined by spaces. |
| ResumeParser.ExtractSummary | src/resume_parser.py:210-228 | `_extract_summary` computes `Summary`. |
| ResumeParser.ScanSummary | src/resume_parser.py:215-226 | The outer loop computes `SummaryFrom`. |
| ResumeParser.SummaryLines | src/resume_parser.py:218-223 | The inner loop computes `SummaryLinesAfter`. |
| ResumeParser.NameOf | src/resume_parser.py:198-206 | The name is the first of the first five lines that looks like a name once stripped (non-empty, none of '@+()', 2–4 words, under 50 characters), or None iff there is none. |
| ResumeParser.ExtractName | src/resume_parser.py:198-206 | The loop computes `NameOf`. |
| ResumeParser.SkillMatchAgrees | src/resume_parser.py:239-240 | For a skill starting and ending with a word character, the `\b` search is the stand-alone-token test. |
| ResumeParser.WordMatchMissesCpp | src/resume_parser.py:239-240 | As written, the pattern for 'c++' does not find "c++ dev", while the token test does. |
| ResumeParser.SectionItems | src/resume_parser.py:247-251 | Every section item is non-empty, stripped and under 30 characters. |
| ResumeParser.SkillsSpec | src/resume_parser.py:230-253 | The skills are strictly sorted (so without duplicates) and are exactly the found patterns and the section items. |
| ResumeParser.SectionSkillItemsShort | src/resume_parser.py:249-251 | Every section item among the skills is a non-empty stripped string under 30 characters. |
| ResumeParser.Skills | src/resume_parser.py:230-253 | The parser's skills, with the `\b` search as written, are strictly sorted. |
| ResumeParser.SkillsMember | src/resume_parser.py:236-251 | A skill is listed iff the `\b` search finds it in the lower-cased text or it is a skills-section item. |
| ResumeParser.SkillsIntendedAgree | src/resume_parser.py:236-241 | The parser and the intended token test list the same names that start and end with a word character; they differ only on names like 'c++' and 'c#'. |
| ResumeParser.ExtractSkills | src/resume_parser.py:230-253 | The loops compute `SkillsWith`. |
| ResumeParser.UpperBeforeLowerSpec | src/resume_parser.py:264 | The lookahead `[A-Z][^a-z]*[A-Z]` matches iff an upper-case letter comes before any lower-case one. |
| ResumeParser.NextBreak | src/resume_parser.py:264 | The next split point at or after `from`, or the end of the text. |
| ResumeParser.PiecesFrom | src/resume_parser.py:264 | `re.split` gives at least one piece. |
| ResumeParser.JoinPieces | src/resume_parser.py:264 | Joining the pieces with newlines gives the text back: the split loses only the newlines it splits at. |
| ResumeParser.JoinJobPieces | src/resume_parser.py:264 | The experience pieces joined by '\n' are the section. |
| ResumeParser.DatesOfSpec | src/resume_parser.py:278-283 | There are dates iff one of the first three lines holds a 4-digit run, and they are the first such line. |
| ResumeParser.EntryFromLines | src/resume_parser.py:270-283 | An entry exists iff there is a line: the title is the first line and the description the rest joined by spaces. |
| ResumeParser.EntryOf | src/resume_parser.py:267-268 | An entry comes only from a piece of at least 20 characters once stripped. |
| ResumeParser.FilterMap | src/resume_parser.py:266-285 | At most one result per element. |
| ResumeParser.FilterMapSnoc | src/resume_parser.py:266-285 | One more element adds its result, if any, at the end. |
| ResumeParser.FilterMapMember | src/resume_parser.py:266-285 | Each result comes from one of the elements. |
| ResumeParser.ExperienceEntriesSpec | src/resume_parser.py:255-287 | Every entry comes from a piece of the experience section of at least 20 characters, and its title is a non-empty stripped line. |
| ResumeParser.ExtractExperience | src/resume_parser.py:255-287 | `_extract_experience` computes `ExperienceOf`. |
| ResumeParser.ReadEntries | src/resume_parser.py:266-285 | The loop over the pieces computes `Entries`. |
| ResumeParser.AddPiece | src/resume_parser.py:266-285 | One turn appends the entry of one piece, if any. |
| ResumeParser.ReadEntry | src/resume_parser.py:267-285 | The loop body computes `EntryOf`. |
| ResumeParser.ReadLines | src/resume_parser.py:270-283 | The entry with the dates scan computes `EntryFromLines`. |
| ResumeParser.DegreeEntries | src/resume_parser.py:299-304 | One entry per degree line, with an empty description. |
| ResumeParser.EducationSpec | src/resume_parser.py:289-306 | An entry is listed iff the section has content and its degree is a stripped non-blank line of the section naming a degree, with an empty description. |
| ResumeParser.ExtractEducation | src/resume_parser.py:289-306 | `_extract_education` computes `EducationWith`. |
| ResumeParser.MakeEntries | src/resume_parser.py:299-304 | The loop computes `DegreeEntries`. |
| ResumeParser.CertificationsSpec | src/resume_parser.py:308-317 | A certification is listed iff the section has content and some line strips to it; each is stripped. |
| ResumeParser.ExtractCertifications | src/resume_parser.py:308-317 | `_extract_certifications` computes `Certifications`. |
| ResumeParser.LastIndexOf | src/resume_parser.py:105 | The last index of the character, or -1. |
| ResumeParser.BaseName | src/resume_parser.py:98 | The last path component holds no '/'. |
| ResumeParser.SuffixSpec | src/resume_parser.py:105-110 | `Path.suffix` is empty, or a dot and at least one more character with no other dot, ending the name after a non-empty stem. |
| ResumeParser.FormatOf | src/resume_parser.py:105-110 | '.pdf' and '.docx' in any case select their extractor; anything else selects none. |
| ResumeParser.FormatIgnoresCase | src/resume_parser.py:105-107 | The choice ignores case. |
| ResumeParser.Information | src/resume_parser.py:167-180 | Every field comes from the same text; the result records the text and path, a name found looks like a name, and the skills are strictly sorted. |
| ResumeParser.ParseResume | src/resume_parser.py:87-118 | A missing path fails first, then a missing file, then the suffix; a parsed resume records the path and the extracted text, and its skills come from the `\b` search as written. |
| ResumeParser.ParseResumeFormat | src/resume_parser.py:104-110 | For an existing file, parsing fails iff the suffix is neither '.pdf' nor '.docx' in any case, and the error names the suffix. |
| ResumeParser.ParsedSkillsSorted | src/resume_parser.py:113-118 | A parsed resume's skills are strictly sorted. |
| Config.WalkConcat | src/config_manager.py:120-129 | Walking a path in two parts is walking the first and then the second from where it ended. |
| Config.WalkFails | src/config_manager.py:123-127 | The walk fails iff some segment is missing or meets a non-dict. |
| Config.ValidateSpec | src/config_manager.py:131-147 | Validation passes (with True) iff every required key is truthy; otherwise the error lists exactly the missing keys, in order, joined by ", ". |
| Config.MissingKeysMember | src/config_manager.py:139-142 | A key is reported missing iff it is required and not truthy. |
| Config.MissingKeysEmpty | src/config_manager.py:139-144 | No key is reported iff every required key is truthy. |
| Config.SetIn | src/config_manager.py:54 | `config[section][key] = x` succeeds iff the section is a dict. |
| Config.SetInKeeps | src/config_manager.py:54 | Setting a key leaves every other path unchanged. |
| Config.OverridesKeep | src/config_manager.py:50-60 | Paths no applied override touches keep their values. |
| Config.OverridesSet | src/config_manager.py:53-60 | An applied override not rewritten later leaves the variable's value at its path. |
| Config.SetInSections | src/config_manager.py:54 | Setting a key keeps which sections are dicts. |
| Config.OverridesFail | src/config_manager.py:50-60 | The overrides raise iff a set variable names a missing or non-dict section. |
| Config.EnvOverrideSpec | src/config_manager.py:50-60 | Each of the three keys holds its variable's value when that is set and non-empty; every other path is unchanged. |
| Config.JoinPath | src/config_manager.py:82 | Joining onto an absolute root gives an absolute path. |
| Config.ResolvedSpec | src/config_manager.py:74-112 | The getter returns the section (or {}), changes only that section's key, makes it absolute, and a second call changes nothing. |
| Config.ConfigManager.constructor | src/config_manager.py:16-38 | The manager holds the loaded configuration and the project root. |
| Config.ConfigManager.Get | src/config_manager.py:118-129 | The loop computes `Lookup`: the default as soon as a segment is missing or not under a dict. |
| Config.ConfigManager.ValidateConfig | src/config_manager.py:131-147 | `validate_config` computes `Validate`. |
| Config.ConfigManager.CollectMissing | src/config_manager.py:139-142 | The loop keeps exactly the required keys whose `get` is falsy, in order. |
| Config.ConfigManager.Override | src/config_manager.py:53-60 | One override line: a set variable writes its key iff the section is a dict; an unset one changes nothing. |
| Config.ConfigManager.OverrideWithEnvVars | src/config_manager.py:50-60 | It succeeds iff `ApplyOverrides` does, and then the stored configuration is `ApplyOverrides` of the old one. |
| Config.ConfigManager.Section | src/config_manager.py:62-72 | A section getter returns the section, or {} when it is absent. |
| Config.ConfigManager.GetResolved | src/config_manager.py:74-112 | The path-resolving getters update the stored configuration and return what `Resolved` gives. |
| Config.ConfigManager.GetResumeConfig | src/config_manager.py:74-84 | `get_resume_config` resolves 'file_path'. |
| Config.ConfigManager.GetApplicationConfig | src/config_manager.py:86-96 | `get_application_config` resolves 'cover_letter_template'. |
| Config.ConfigManager.GetLoggingConfig | src/config_manager.py:98-112 | `get_logging_config` resolves 'file'. |
| Applicator.ScheduleUpToShape | src/job_applicator.py:65-86 | After k turns, job i's attempt is at position 2i, each followed by a pause except the last job's. |
| Applicator.ScheduleShape | src/job_applicator.py:65-86 | One attempt per recommended job in order, a pause between consecutive attempts and none after the last. |
| Applicator.ApplyToJobs | src/job_applicator.py:34-97 | Auto-apply off: (0, 0, all skipped) and no attempt. Otherwise the successes are the recommended jobs that applied. Successes plus failures are the recommended jobs plus one per pause that raises (negative delay), since the `except` counts that job as failed again. Skipped is the number not recommended. The trace is the schedule. |
| Applicator.ApplyEach | src/job_applicator.py:65-91 | The loop counts one success or failure per recommended job, plus one failure per raising pause, and follows the schedule. |
| Applicator.RaisingPauses | src/job_applicator.py:82-91 | No pause raises for a non-negative delay; for a negative one, every turn but the last raises. |
| Applicator.CountStep | src/job_applicator.py:75-80 | One more job adds one success iff it applied. |
| Applicator.FlowSpec | src/job_applicator.py:302-380 | At most one click per remaining step, each the one that step's buttons call for. Success iff the last click is Submit, which is clicked nowhere else. Failure only when the steps run out or a step offers no button. |
| Applicator.EasyApplyFlow | src/job_applicator.py:289-384 | The `while step < max_steps` loop computes `Flow` from step 0. |
| Applicator.FlowAppend | src/job_applicator.py:352-373 | A Review or Next click continues the flow at the next step. |
| Applicator.StepClick | src/job_applicator.py:330-373 | Submit first, then Review, then Next only when Review was not clicked. |
| Applicator.FilledSpec | src/job_applicator.py:441-456 | A filled field keeps label, name and id. A field with a value, or with no key in its text, is untouched. A changed field got the value of the first key found. |
| Applicator.FillApplicationFields | src/job_applicator.py:433-461 | Every field of the array is filled in place by `Filled`. |
| Applicator.ChosenOptionSpec | src/job_applicator.py:511-523 | Only selects whose label holds 'experience' or 'years' are touched, and there the first option holding 'senior', '5+' or '3-5' is chosen; none is chosen iff no such label or option. |
| Applicator.HandleDropdownFields | src/job_applicator.py:500-530 | One choice per select, each `ChosenOption`. |
| Applicator.ChooseOption | src/job_applicator.py:513-523 | The scan of one select computes `ChosenOption`. |
| Applicator.SummaryPartition | src/job_applicator.py:561-562 | Recommended and not recommended partition the matched jobs. |
| Applicator.TopJobsSpec | src/job_applicator.py:571-574 | At most five jobs are listed, all recommended, by non-increasing score, and no unlisted recommended job scores higher than a listed one. |
| Applicator.Repeat | src/job_applicator.py:557 | `c * n` has length n. |
| Applicator.SummaryEmpty | src/job_applicator.py:553-554 | "No jobs to apply to." is returned for the empty list and only for it. |
| Applicator.GenerateApplicationSummary | src/job_applicator.py:543-584 | The summary built in a loop is `SummaryOf`. |
| Applicator.ListJobs | src/job_applicator.py:574-582 | The listing loop computes `Listing`. |
| Text.LowerChar | src/job_scraper.py:534 | ASCII `lower()` of a character: upper-case letters shift by 32, others are kept. |
| Text.Lower | src/job_scraper.py:534 | `lower()` keeps the length and lowers each character. |
| Text.LowerConcat | src/job_scraper.py:441-447 | Lowering a concatenation lowers each part. |
| Text.LowerIdempotent | src/resume_parser.py:105 | Lowering twice is lowering once. |
| Text.LStrip | src/resume_parser.py:201 | Leading whitespace removed, nothing else. |
| Text.RStrip | src/resume_parser.py:201 | Trailing whitespace removed, nothing else. |
| Text.Strip | src/resume_parser.py:201 | `strip()` gives a stripped string no longer than the input. |
| Text.StripIdempotent | src/resume_parser.py:270 | Stripping twice is stripping once. |
| Text.StripOfStripped | src/resume_parser.py:270 | A stripped string is its own `strip()`. |
| Text.RStripChar | src/job_scraper.py:561 | `rstrip('/')` removes trailing '/' characters only. |
| Text.FirstIn | src/resume_parser.py:247 | The first separator's index, or the length. |
| Text.SplitOn | src/resume_parser.py:247 | `re.split` on a character class: at least one piece, none containing a separator. |
| Text.Words | src/resume_parser.py:204 | `split()` gives non-empty words. |
| Text.RemoveAll | src/gemini_matcher.py:162-164 | `replace(p, '')` never lengthens, and leaves a text without p unchanged. |
| Text.Find | src/job_scraper.py:745-746 | The first occurrence, or -1 iff there is none. |
| Text.SplitStr | src/job_scraper.py:745-747 | `split(sep)`: the whole text when sep is absent, at least two parts when present. |
| Text.JoinSplitStr | src/job_scraper.py:745-747 | Joining the parts with the separator gives the text back. |
| Text.SplitStrNoSep | src/job_scraper.py:745-746 | A separator-free text splits into itself. |
| Text.TitleCase | src/job_scraper.py:1109 | `title()` keeps the length. |
| Text.ReplaceChar | src/job_scraper.py:855 | `replace(a, b)` for characters swaps exactly the a's. |
| Text.Prefix | src/job_scraper.py:764 | `s[:n]` is the first min(n, len) characters. |
| Text.LessTransitive | src/resume_parser.py:253 | String order is transitive. |
| Text.LessTotal | src/resume_parser.py:253 | Any two strings are equal or ordered. |
| Text.NatToString | src/job_applicator.py:581 | The decimal digits of a number. |
| Lists.Keep | src/job_applicator.py:58-61 | A comprehension filter keeps only elements meeting the condition. |
| Lists.KeepMember | src/job_applicator.py:58-61 | An element is kept iff it is in the list and meets the condition. |
| Lists.KeepAll | src/job_scraper.py:505-525 | A filter that every element passes keeps the whole list. |
| Lists.KeepKeep | src/job_applicator.py:58-61 | Filtering by one condition and then another is filtering by both. |
| Lists.KeepAppend | src/job_scraper.py:505-525 | Filtering a concatenation filters each part. |
| Lists.KeepPartition | src/job_applicator.py:561-562 | A condition and its negation split a list into two parts that together hold every element once. |
| Lists.FirstIndex | src/resume_parser.py:200-206 | The `for … if …: break` scan: the first index meeting the condition, or the length. |
| Lists.TakeUntil | src/resume_parser.py:351-357 | The elements up to the first that meets the condition. |
| Lists.Select | src/job_scraper.py:505-525 | The `if p(x): append(x)` loop computes `Keep`. |
| Lists.ScanFirst | src/resume_parser.py:200-206 | The scanning loop stops at `FirstIndex`. |
| Lists.SortDesc | src/gemini_matcher.py:90 | Descending sort is a permutation. |
| Lists.SortDescSorted | src/gemini_matcher.py:90 | It orders by non-increasing key. |
| Lists.SortDescStable | src/gemini_matcher.py:90 | Elements with equal keys keep their order (Python's sort is stable). |
| Lists.SortedUnique | src/resume_parser.py:253 | `sorted(set(items))` has exactly the items' elements. |
| Lists.SortedUniqueIncreasing | src/resume_parser.py:253 | It is strictly increasing, so holds no element twice. |
| Records.Get | src/job_scraper.py:441-447 | `job.get(k, d)` is the value when present, else the default. |

## Left out

- Network and browser I/O: HTTP requests, HTML and XML parsing and Selenium
  driving. Each source is a list given as a parameter (`indeed`,
  `linkedinPublic`, `reachable`); LinkedIn's Selenium scraper
  (`_scrape_linkedin`, `_scrape_linkedin_public*`) is not part of this
  model. Page state in the applicator is an observation per step.
- `_apply_to_single_job`, login, resume upload and `_get_field_label` are
  browser work: the outcome of one application is a parameter `applyOne`,
  and each field's label is part of the field.
- Randomness and clocks: `random.choice`/`randint` are draws from a stream
  `rand`. `time.sleep` appears only as the pause events in the applicator's
  trace. `datetime.now()` is a `now` parameter or a `daysAgo` formatter.
  The 7-day window of the dashboard is a `since` moment.
- `get_matched_jobs`, `get_applications` and the search-session table are
  not modelled. No modelled operation depends on them.
- SQLite specifics: connections, SQL text and unenforced foreign keys.
  Failures inside the database (the `except` paths returning None or False)
  are not modelled.
- The language-model SDK and `json.loads` are oracles. `generate_cover_letter`
  is only its prompt (`Prompts.CoverLetterPrompt`); the model call itself is
  left out.
- The Flask layer: templates, flash messages, CSRF, headers, upload and
  settings pages. `run_job_search` is modelled up to its feedback; the
  outer exception handler is modelled only through its quota keyword list.
- `review_jobs`'s `except` branch (a database error shows an empty page) is
  not modelled.
- `int(job_id)` in `bulk_job_action`: ids arrive as integers, so a
  non-numeric id (which raises) is not modelled.
- PDF and DOCX text extraction, NLTK setup, and the email and phone regular
  expressions. The extractor is a parameter `extract`.
- `_extract_projects` is not modelled: no other part of the core uses it.
- YAML and `.env` loading and `save_config`. The configuration arrives
  already loaded. Floating-point values inside it are not modelled.
- `get_logging_config` creates the log directory; that side effect is left
  out.
- Launchers and orchestration: `main.py`, the launch scripts and
  `clear_database.py`.
- Applicator.ApplyToJobs: the configured delay is an integer. A `null` or
  non-numeric `delay_between_applications`, which also makes `time.sleep`
  raise, is not modelled.
- Config.ConfigManager.OverrideWithEnvVars: when an override raises, the state left
  behind is not stated, because the constructor then raises and the manager is
  never used.
- Unicode: `lower()`, `strip()`, `isupper()` and `title()` are ASCII models.
- Path normalisation: `Path` is modelled as '/'-separated text (last
  component, suffix, joining onto the root). `.`/`..` are not resolved.
- JobScraper.IndeedJob: states the description bound and the source fields;
  the other fields (title, company, date, URL) are computed but not all
  stated in its contract.
- JobScraper.GenerateSampleJobs: states the count only; the fields of each
  generated job are stated by the per-generator members.
- Store.DatabaseManager.GetDashboardStats: states the two bounds between its
  counts; the individual counts are given by its body over the tables.
- Store.DatabaseManager.GetAllJobs: `ORDER BY scraped_at DESC` leaves the
  order of rows with equal `scraped_at` to SQLite; the model fixes it (a
  stable sort of the listing, which is in posting id order), and its
  contract promises only that the rows are sorted by `scraped_at`.
- WebApp.RunStep: the error counter's cap on printed messages (the first
  three errors are logged) is logging only and is not modelled.

## Findings

| source | as written | input that shows it | evidently intended | confidence | as-written member | corrected member |
|---|---|---|---|---|---|---|
| web/app.py:461-463 | `total_pages` is computed from `get_jobs_count`, which counts postings. The page rows come from `get_all_jobs`, a LEFT JOIN that gives one row per analysis of a posting. | 100 matching postings, one of them analysed twice (each `run_job_search` appends an analysis): the listing has 101 rows but there is one page, so row 101 is never shown. | Page count covering every listing row. | not executed | WebApp.ReviewJobs / WebApp.ReviewPagesMissRows | WebApp.ReviewJobsByRows / WebApp.ReviewPagesByRowsCoverListing |
| src/resume_parser.py:239-240 | The pattern is `\b` + skill + `\b`. After a skill ending in a non-word character ('c++', 'c#'), the trailing `\b` needs a word character to follow. | The text "c++ dev" with the skill 'c++': the search finds nothing. | The skill found as a stand-alone token. | not executed | ResumeParser.Skills / ResumeParser.WordMatchMissesCpp | ResumeParser.SkillsIntended / ResumeParser.SkillsIntendedAgree |
