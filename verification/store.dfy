/** The persistence store: the four tables of the job database (postings,
    compatibility analyses, applications and resumes), each a map from row id
    to row with its own AUTOINCREMENT counter, and the queries the web
    interface runs over them. Timestamps (`CURRENT_TIMESTAMP`) are passed in
    as `now`. */
module Store {
  import opened Wrappers
  import opened Text
  import opened Lists
  import opened Records

  // ---------------------------------------------------------------------
  // Rows

  /** A `job_postings` row. `title` and `company` are NOT NULL; the other
      text columns hold whatever the job dictionary had under their names. */
  datatype Posting = Posting(
    title: string,
    company: string,
    details: map<string, string>,   // location, description, requirements, url, salary, posted_date
    source: string,
    scrapedAt: int,
    jobHash: string,
    reviewStatus: string,
    reviewNotes: Option<string>,
    reviewedAt: Option<int>)

  /** A `job_analysis` row. `job_id` carries no uniqueness constraint. */
  datatype AnalysisRow = AnalysisRow(jobId: int, analysis: Analysis, analyzedAt: int)

  /** An `applications` row. */
  datatype ApplicationRow = ApplicationRow(
    jobId: int,
    status: string,
    appliedAt: Option<int>,
    coverLetter: Option<string>,
    notes: Option<string>,
    responseReceived: bool,
    responseDate: Option<int>,
    responseType: Option<string>,
    createdAt: int,
    updatedAt: int)

  /** A `resumes` row; `parsedData` is the stored JSON text, if any. */
  datatype ResumeRow = ResumeRow(
    filename: string,
    filePath: string,
    fileSize: int,
    uploadedAt: int,
    isActive: bool,
    parsedData: Option<string>)

  /** One row of the review listing: a posting joined with the score of one
      of its analyses, or with no score when it has none. */
  datatype JobRow = JobRow(id: int, posting: Posting, score: Option<int>)

  datatype DashboardStats = DashboardStats(
    totalMatchedJobs: nat,
    highScoreMatches: nat,
    totalApplications: nat,
    appliedCount: nat,
    pendingCount: nat,
    recentJobs: nat)

  /** The text columns copied from the job dictionary besides title, company
      and source. */
  const DetailColumns: set<string> :=
    {"location", "description", "requirements", "url", "salary", "posted_date"}

  /** The row `save_job_posting` inserts for a job that has a title and a
      company. */
  function NewPosting(job: Job, now: int): (p: Posting)
    requires "title" in job && "company" in job
    ensures p.jobHash == JobKey(job)
    ensures p.reviewStatus == "new" && p.reviewNotes.None? && p.reviewedAt.None?
    ensures p.source == (if "source" in job then job["source"] else "Unknown")
    ensures forall c :: c in p.details <==> c in DetailColumns && c in job
  {
    Posting(job["title"], job["company"],
            map c | c in DetailColumns && c in job :: job[c],
            Get(job, "source", "Unknown"), now, JobKey(job), "new", None, None)
  }

  /** A Python value used as a condition: None and '' are false. */
  predicate Truthy(s: Option<string>) {
    s.Some? && s.value != ""
  }

  // ---------------------------------------------------------------------
  // Scans over a table's id range

  /** The number of rows with id in [0, n) whose row satisfies `p`. */
  function CountIds<T>(m: map<int, T>, n: nat, p: T -> bool): nat {
    if n == 0 then 0
    else CountIds(m, n - 1, p) + (if n - 1 in m && p(m[n - 1]) then 1 else 0)
  }

  /** The ids in [0, n) whose row satisfies `p`. */
  function IdsWhere<T>(m: map<int, T>, n: nat, p: T -> bool): set<int> {
    set k | k in m && 0 <= k < n && p(m[k])
  }

  /** `CountIds` is `COUNT(*) ... WHERE p` over the ids below n. */
  lemma {:induction false} CountIdsIsCardinality<T>(m: map<int, T>, n: nat, p: T -> bool)
    ensures CountIds(m, n, p) == |IdsWhere(m, n, p)|
    decreases n
  {
    if n > 0 {
      CountIdsIsCardinality(m, n - 1, p);
      if n - 1 in m && p(m[n - 1]) {
        assert IdsWhere(m, n, p) == IdsWhere(m, n - 1, p) + {n - 1};
      } else {
        assert IdsWhere(m, n, p) == IdsWhere(m, n - 1, p);
      }
    }
  }

  lemma {:induction false} CountIdsMonotone<T>(m: map<int, T>, n: nat, p: T -> bool, q: T -> bool)
    requires forall x :: p(x) ==> q(x)
    ensures CountIds(m, n, p) <= CountIds(m, n, q)
    decreases n
  {
    if n > 0 {
      CountIdsMonotone(m, n - 1, p, q);
    }
  }

  /** Two conditions no row meets together count no more rows than a
      condition each of them implies. */
  lemma {:induction false} CountIdsDisjoint<T>(m: map<int, T>, n: nat, p: T -> bool, q: T -> bool, r: T -> bool)
    requires forall x :: !(p(x) && q(x))
    requires forall x :: p(x) || q(x) ==> r(x)
    ensures CountIds(m, n, p) + CountIds(m, n, q) <= CountIds(m, n, r)
    decreases n
  {
    if n > 0 {
      CountIdsDisjoint(m, n - 1, p, q, r);
    }
  }

  /** `SELECT id FROM job_postings WHERE job_hash = ?`: the lowest such id
      below n. */
  function FindHash(postings: map<int, Posting>, h: string, n: nat): (r: Option<int>)
    ensures r.Some? ==> 0 <= r.value < n && r.value in postings && postings[r.value].jobHash == h
    ensures r.None? ==> forall k :: k in postings && 0 <= k < n ==> postings[k].jobHash != h
  {
    if n == 0 then None
    else
      match FindHash(postings, h, n - 1)
      case Some(k) => Some(k)
      case None => if n - 1 in postings && postings[n - 1].jobHash == h then Some(n - 1) else None
  }

  /** The active resume with the latest upload time among the ids below n
      (`WHERE is_active ORDER BY uploaded_at DESC LIMIT 1`); of equal times
      the lowest id. */
  function LatestActive(resumes: map<int, ResumeRow>, n: nat): (r: Option<int>)
    ensures r.Some? ==> r.value in resumes && 0 <= r.value < n && resumes[r.value].isActive
    ensures r.Some? ==> forall k :: k in resumes && 0 <= k < n && resumes[k].isActive ==>
                          resumes[k].uploadedAt <= resumes[r.value].uploadedAt
    ensures r.None? <==> forall k :: k in resumes && 0 <= k < n ==> !resumes[k].isActive
  {
    if n == 0 then None
    else
      var best := LatestActive(resumes, n - 1);
      if n - 1 in resumes && resumes[n - 1].isActive
         && (best.None? || resumes[best.value].uploadedAt < resumes[n - 1].uploadedAt)
      then Some(n - 1)
      else best
  }

  /** The `source` column of the postings with id below n, in id order. */
  function SourcesOf(postings: map<int, Posting>, n: nat): (r: seq<string>)
    ensures Elems(r) == set k | k in postings && 0 <= k < n :: postings[k].source
  {
    if n == 0 then []
    else
      var rest := SourcesOf(postings, n - 1);
      var here := if n - 1 in postings then [postings[n - 1].source] else [];
      ElemsConcat(rest, here);
      rest + here
  }

  // ---------------------------------------------------------------------
  // The review listing

  /** `review_status = ?` and `source = ?`, each skipped when its filter is
      'all'. */
  predicate MatchesFilters(p: Posting, statusFilter: string, sourceFilter: string) {
    (statusFilter == "all" || p.reviewStatus == statusFilter)
    && (sourceFilter == "all" || p.source == sourceFilter)
  }

  function JobFilter(statusFilter: string, sourceFilter: string): Posting -> bool {
    p => MatchesFilters(p, statusFilter, sourceFilter)
  }

  /** The compatibility scores of the analyses of `jobId` with id below n,
      in id order. */
  function ScoresOf(analyses: map<int, AnalysisRow>, jobId: int, n: nat): (r: seq<Option<int>>)
    ensures |r| > 0 ==> exists k :: k in analyses && 0 <= k < n && analyses[k].jobId == jobId
  {
    if n == 0 then []
    else
      ScoresOf(analyses, jobId, n - 1)
      + (if n - 1 in analyses && analyses[n - 1].jobId == jobId
         then [analyses[n - 1].analysis.score] else [])
  }

  /** The LEFT JOIN rows of one posting. */
  function JoinRows(id: int, p: Posting, scores: seq<Option<int>>): (r: seq<JobRow>)
    ensures |r| == if scores == [] then 1 else |scores|
    ensures forall i :: 0 <= i < |r| ==> r[i].id == id && r[i].posting == p
  {
    if scores == [] then [JobRow(id, p, None)]
    else seq(|scores|, i requires 0 <= i < |scores| => JobRow(id, p, scores[i]))
  }

  /** The rows the listing gives posting `id`. */
  function RowsOfId(postings: map<int, Posting>, analyses: map<int, AnalysisRow>, m: nat,
                    statusFilter: string, sourceFilter: string, id: int): seq<JobRow>
  {
    if id in postings && MatchesFilters(postings[id], statusFilter, sourceFilter)
    then JoinRows(id, postings[id], ScoresOf(analyses, id, m)) else []
  }

  /** `job_postings LEFT JOIN job_analysis` restricted to the filters, over
      the posting ids below n and the analysis ids below m, in id order. */
  function Joined(postings: map<int, Posting>, analyses: map<int, AnalysisRow>, n: nat, m: nat,
                  statusFilter: string, sourceFilter: string): (r: seq<JobRow>)
    ensures forall i :: 0 <= i < |r| ==>
              r[i].id in postings && r[i].posting == postings[r[i].id]
              && MatchesFilters(r[i].posting, statusFilter, sourceFilter)
  {
    if n == 0 then []
    else
      var prev := Joined(postings, analyses, n - 1, m, statusFilter, sourceFilter);
      var rows := RowsOfId(postings, analyses, m, statusFilter, sourceFilter, n - 1);
      RowsOfPostingsConcat(prev, rows, postings, statusFilter, sourceFilter);
      prev + rows
  }

  lemma RowsOfPostingsConcat(a: seq<JobRow>, b: seq<JobRow>, postings: map<int, Posting>,
                             statusFilter: string, sourceFilter: string)
    requires forall i :: 0 <= i < |a| ==>
               a[i].id in postings && a[i].posting == postings[a[i].id]
               && MatchesFilters(a[i].posting, statusFilter, sourceFilter)
    requires forall i :: 0 <= i < |b| ==>
               b[i].id in postings && b[i].posting == postings[b[i].id]
               && MatchesFilters(b[i].posting, statusFilter, sourceFilter)
    ensures forall i :: 0 <= i < |a + b| ==>
              (a + b)[i].id in postings && (a + b)[i].posting == postings[(a + b)[i].id]
              && MatchesFilters((a + b)[i].posting, statusFilter, sourceFilter)
  {
    forall i | 0 <= i < |a + b|
      ensures (a + b)[i].id in postings && (a + b)[i].posting == postings[(a + b)[i].id]
              && MatchesFilters((a + b)[i].posting, statusFilter, sourceFilter)
    {
      if i < |a| {
        assert (a + b)[i] == a[i];
      } else {
        assert (a + b)[i] == b[i - |a|];
      }
    }
  }

  /** No two analyses belong to the same posting. */
  predicate OneAnalysisPerJob(analyses: map<int, AnalysisRow>) {
    forall a, b :: a in analyses && b in analyses && analyses[a].jobId == analyses[b].jobId ==> a == b
  }

  lemma {:induction false} ScoresOfAtMostOne(analyses: map<int, AnalysisRow>, jobId: int, n: nat)
    requires OneAnalysisPerJob(analyses)
    ensures |ScoresOf(analyses, jobId, n)| <= 1
    decreases n
  {
    if n > 0 {
      ScoresOfAtMostOne(analyses, jobId, n - 1);
      if |ScoresOf(analyses, jobId, n - 1)| > 0 {
        var k :| k in analyses && 0 <= k < n - 1 && analyses[k].jobId == jobId;
        assert !(n - 1 in analyses && analyses[n - 1].jobId == jobId);
      }
    }
  }

  /** With at most one analysis per posting the listing has exactly as many
      rows as there are matching postings; otherwise a posting appears once
      per analysis. */
  lemma {:induction false} JoinedLength(postings: map<int, Posting>, analyses: map<int, AnalysisRow>,
                                        n: nat, m: nat, statusFilter: string, sourceFilter: string)
    requires OneAnalysisPerJob(analyses)
    ensures |Joined(postings, analyses, n, m, statusFilter, sourceFilter)|
         == CountIds(postings, n, JobFilter(statusFilter, sourceFilter))
    decreases n
  {
    if n > 0 {
      JoinedLength(postings, analyses, n - 1, m, statusFilter, sourceFilter);
      ScoresOfAtMostOne(analyses, n - 1, m);
    }
  }

  /** The number of rows of `rows` that belong to posting `id`. */
  function CountRowsOf(rows: seq<JobRow>, id: int): (c: nat)
    ensures c <= |rows|
    decreases |rows|
  {
    if rows == [] then 0
    else CountRowsOf(rows[..|rows| - 1], id) + if rows[|rows| - 1].id == id then 1 else 0
  }

  lemma {:induction false} CountRowsOfConcat(a: seq<JobRow>, b: seq<JobRow>, id: int)
    ensures CountRowsOf(a + b, id) == CountRowsOf(a, id) + CountRowsOf(b, id)
    decreases |b|
  {
    if b == [] {
      assert a + b == a;
    } else {
      var n := |b| - 1;
      assert (a + b)[..|a + b| - 1] == a + b[..n];
      assert (a + b)[|a + b| - 1] == b[n];
      CountRowsOfConcat(a, b[..n], id);
    }
  }

  lemma {:induction false} CountRowsOfSame(rows: seq<JobRow>, j: int, id: int)
    requires forall i :: 0 <= i < |rows| ==> rows[i].id == j
    ensures CountRowsOf(rows, id) == if j == id then |rows| else 0
    decreases |rows|
  {
    if rows != [] {
      CountRowsOfSame(rows[..|rows| - 1], j, id);
    }
  }

  lemma CountRowsOfAppend(prev: seq<JobRow>, rows: seq<JobRow>, j: int, id: int)
    requires forall i :: 0 <= i < |rows| ==> rows[i].id == j
    ensures CountRowsOf(prev + rows, id) == CountRowsOf(prev, id) + if j == id then |rows| else 0
  {
    CountRowsOfConcat(prev, rows, id);
    CountRowsOfSame(rows, j, id);
  }

  lemma JoinedUnfold(postings: map<int, Posting>, analyses: map<int, AnalysisRow>,
                     n: nat, m: nat, statusFilter: string, sourceFilter: string)
    requires n > 0
    ensures Joined(postings, analyses, n, m, statusFilter, sourceFilter)
         == Joined(postings, analyses, n - 1, m, statusFilter, sourceFilter)
            + RowsOfId(postings, analyses, m, statusFilter, sourceFilter, n - 1)
  {
  }

  /** How many rows the listing gives posting `id`: one per analysis of it
      below m, or one with no score when it has none; none when it is not
      stored below n or fails a filter. */
  function ListedCount(postings: map<int, Posting>, analyses: map<int, AnalysisRow>,
                       n: nat, m: nat, statusFilter: string, sourceFilter: string, id: int): nat
  {
    if id in postings && 0 <= id < n && MatchesFilters(postings[id], statusFilter, sourceFilter)
    then (if ScoresOf(analyses, id, m) == [] then 1 else |ScoresOf(analyses, id, m)|)
    else 0
  }

  lemma CountJoinedStep(postings: map<int, Posting>, analyses: map<int, AnalysisRow>,
                        n: nat, m: nat, statusFilter: string, sourceFilter: string, id: int)
    requires n > 0
    ensures CountRowsOf(Joined(postings, analyses, n, m, statusFilter, sourceFilter), id)
         == CountRowsOf(Joined(postings, analyses, n - 1, m, statusFilter, sourceFilter), id)
            + if id == n - 1 then |RowsOfId(postings, analyses, m, statusFilter, sourceFilter, id)| else 0
  {
    JoinedUnfold(postings, analyses, n, m, statusFilter, sourceFilter);
    CountRowsOfAppend(Joined(postings, analyses, n - 1, m, statusFilter, sourceFilter),
                      RowsOfId(postings, analyses, m, statusFilter, sourceFilter, n - 1), n - 1, id);
  }

  lemma ListedCountStep(postings: map<int, Posting>, analyses: map<int, AnalysisRow>,
                        n: nat, m: nat, statusFilter: string, sourceFilter: string, id: int)
    requires n > 0
    ensures ListedCount(postings, analyses, n, m, statusFilter, sourceFilter, id)
         == ListedCount(postings, analyses, n - 1, m, statusFilter, sourceFilter, id)
            + if id == n - 1 then |RowsOfId(postings, analyses, m, statusFilter, sourceFilter, id)| else 0
  {
  }

  /** Every stored posting below n that passes the filters is listed once
      per analysis of it below m, and once with no score when it has none;
      no other posting is listed. */
  lemma {:induction false} JoinedRowsOf(postings: map<int, Posting>, analyses: map<int, AnalysisRow>,
                                        n: nat, m: nat, statusFilter: string, sourceFilter: string, id: int)
    ensures CountRowsOf(Joined(postings, analyses, n, m, statusFilter, sourceFilter), id)
         == ListedCount(postings, analyses, n, m, statusFilter, sourceFilter, id)
    decreases n
  {
    if n > 0 {
      JoinedRowsOf(postings, analyses, n - 1, m, statusFilter, sourceFilter, id);
      CountJoinedStep(postings, analyses, n, m, statusFilter, sourceFilter, id);
      ListedCountStep(postings, analyses, n, m, statusFilter, sourceFilter, id);
    }
  }

  /** A posting analysed twice is listed twice although it is counted once. */
  lemma DoubleAnalysisListedTwice(p: Posting, a: Analysis, b: Analysis)
    ensures var postings := map[1 := p];
            var analyses := map[1 := AnalysisRow(1, a, 0), 2 := AnalysisRow(1, b, 0)];
            |Joined(postings, analyses, 2, 3, "all", "all")| == 2
            && CountIds(postings, 2, JobFilter("all", "all")) == 1
  {
    var postings := map[1 := p];
    var analyses := map[1 := AnalysisRow(1, a, 0), 2 := AnalysisRow(1, b, 0)];
    assert ScoresOf(analyses, 1, 1) == [];
    assert ScoresOf(analyses, 1, 2) == [a.score];
    assert ScoresOf(analyses, 1, 3) == [a.score, b.score];
    assert Joined(postings, analyses, 1, 3, "all", "all") == [];
    assert CountIds(postings, 1, JobFilter("all", "all")) == 0;
  }

  function ScrapedAt(r: JobRow): int {
    r.posting.scrapedAt
  }

  /** Where `OFFSET offset` starts in n rows; SQLite reads a negative offset
      as none. */
  function PageStart(offset: int, n: nat): (s: nat)
    ensures s <= n
  {
    if offset < 0 then 0 else Min(offset, n)
  }

  /** `LIMIT limit OFFSET offset`; SQLite reads a negative limit as none. */
  function Page<T>(rows: seq<T>, limit: int, offset: int): (r: seq<T>)
    ensures limit >= 0 ==> |r| <= limit
    ensures PageStart(offset, |rows|) + |r| <= |rows|
    ensures forall i :: 0 <= i < |r| ==> r[i] == rows[PageStart(offset, |rows|) + i]
  {
    var s := PageStart(offset, |rows|);
    if limit < 0 then rows[s..] else rows[s..Min(s + limit, |rows|)]
  }

  lemma PageSlice<T>(rows: seq<T>, limit: nat, offset: nat)
    ensures Page(rows, limit, offset) == rows[Min(offset, |rows|)..Min(offset + limit, |rows|)]
  {
  }

  /** Pages 1..k of `limit` rows each, shown one after another. */
  function FirstPages<T>(rows: seq<T>, limit: nat, k: nat): seq<T> {
    if k == 0 then [] else FirstPages(rows, limit, k - 1) + Page(rows, limit, (k - 1) * limit)
  }

  /** Consecutive pages tile the listing: the first k pages are exactly its
      first k * limit rows, with nothing skipped or repeated. */
  lemma {:induction false} FirstPagesArePrefix<T>(rows: seq<T>, limit: nat, k: nat)
    ensures FirstPages(rows, limit, k) == rows[..Min(k * limit, |rows|)]
    decreases k
  {
    if k > 0 {
      FirstPagesArePrefix(rows, limit, k - 1);
      var o := (k - 1) * limit;
      MulSucc(k - 1, limit);
      PageSlice(rows, limit, o);
      SliceJoin(rows, Min(o, |rows|), Min(o + limit, |rows|));
    }
  }

  lemma PageOfSorted<T>(rows: seq<T>, key: T -> int, limit: int, offset: int)
    requires SortedDesc(rows, key)
    ensures SortedDesc(Page(rows, limit, offset), key)
  {
    var s := PageStart(offset, |rows|);
    var e := if limit < 0 then |rows| else Min(s + limit, |rows|);
    SortedDescSlice(rows, key, s, e);
    assert Page(rows, limit, offset) == rows[s..e];
  }

  // ---------------------------------------------------------------------
  // Dashboard conditions

  predicate Matched(a: AnalysisRow) {
    a.analysis.score.Some? && a.analysis.score.value > 0
  }

  predicate HighScore(a: AnalysisRow) {
    a.analysis.score.Some? && a.analysis.score.value >= 80
  }

  predicate Applied(a: ApplicationRow) {
    a.status == "applied"
  }

  /** 'approved' is the status `create_application` gives a new row. */
  predicate Pending(a: ApplicationRow) {
    a.status == "approved"
  }

  predicate AnyApplication(a: ApplicationRow) {
    true
  }

  // ---------------------------------------------------------------------
  // The store

  /** The postings table: ids below the next id, each hash derived from
      the title and company, and the hash UNIQUE. */
  ghost predicate PostingsValid(postings: map<int, Posting>, nextPostingId: nat) {
    && 0 < nextPostingId
    && (forall k :: k in postings ==> 0 < k < nextPostingId)
    && (forall k :: k in postings ==>
          postings[k].jobHash == Lower(postings[k].title) + "_" + Lower(postings[k].company))
    && (forall a, b :: a in postings && b in postings && postings[a].jobHash == postings[b].jobHash ==> a == b)
  }

  /** The other tables: ids below their next ids, and at most one active resume. */
  ghost predicate RowsValid(analyses: map<int, AnalysisRow>, applications: map<int, ApplicationRow>,
                            resumes: map<int, ResumeRow>, nextAnalysisId: nat, nextApplicationId: nat,
                            nextResumeId: nat) {
    && 0 < nextAnalysisId && 0 < nextApplicationId && 0 < nextResumeId
    && (forall k :: k in analyses ==> 0 < k < nextAnalysisId)
    && (forall k :: k in applications ==> 0 < k < nextApplicationId)
    && (forall k :: k in resumes ==> 0 < k < nextResumeId)
    && (forall a, b :: a in resumes && b in resumes && resumes[a].isActive && resumes[b].isActive ==> a == b)
  }

  class DatabaseManager {
    var postings: map<int, Posting>
    var analyses: map<int, AnalysisRow>
    var applications: map<int, ApplicationRow>
    var resumes: map<int, ResumeRow>
    /** AUTOINCREMENT: the id the next insert gets; ids are never reused. */
    var nextPostingId: nat
    var nextAnalysisId: nat
    var nextApplicationId: nat
    var nextResumeId: nat

    /** Ids are positive and below their counter; `job_hash` is UNIQUE and is
        the lower-cased title and company; at most one resume is active. */
    ghost predicate Valid()
      reads this
    {
      && PostingsValid(postings, nextPostingId)
      && RowsValid(analyses, applications, resumes, nextAnalysisId, nextApplicationId, nextResumeId)
    }

    constructor ()
      ensures Valid()
      ensures postings == map[] && analyses == map[] && applications == map[] && resumes == map[]
      ensures nextPostingId == 1 && nextAnalysisId == 1 && nextApplicationId == 1 && nextResumeId == 1
    {
      postings, analyses, applications, resumes := map[], map[], map[], map[];
      nextPostingId, nextAnalysisId, nextApplicationId, nextResumeId := 1, 1, 1, 1;
    }

    function IdOfHash(h: string): Option<int>
      reads this
    {
      FindHash(postings, h, nextPostingId)
    }

    /** `save_job_posting`: INSERT OR IGNORE keyed on the UNIQUE hash. A job
        whose hash is already stored inserts nothing and gets the stored id;
        a job without a title or a company violates NOT NULL, which OR
        IGNORE also skips, so it gets the stored id or None. */
    method SaveJobPosting(job: Job, now: int) returns (id: Option<int>)
      requires Valid()
      modifies this
      ensures Valid()
      ensures old(IdOfHash(JobKey(job))).Some? ==>
                id == old(IdOfHash(JobKey(job))) && postings == old(postings)
                && nextPostingId == old(nextPostingId)
      ensures old(IdOfHash(JobKey(job))).None? && "title" in job && "company" in job ==>
                id == Some(old(nextPostingId))
                && postings == old(postings)[old(nextPostingId) := NewPosting(job, now)]
                && nextPostingId == old(nextPostingId) + 1
      ensures old(IdOfHash(JobKey(job))).None? && !("title" in job && "company" in job) ==>
                id.None? && postings == old(postings) && nextPostingId == old(nextPostingId)
      ensures id.Some? ==> id.value in postings && postings[id.value].jobHash == JobKey(job)
      ensures analyses == old(analyses) && applications == old(applications) && resumes == old(resumes)
      ensures nextAnalysisId == old(nextAnalysisId) && nextApplicationId == old(nextApplicationId)
              && nextResumeId == old(nextResumeId)
    {
      var existing := FindHash(postings, JobKey(job), nextPostingId);
      if existing.None? && "title" in job && "company" in job {
        id := Some(nextPostingId);
        postings := postings[nextPostingId := NewPosting(job, now)];
        nextPostingId := nextPostingId + 1;
      } else {
        id := existing;
      }
    }

    /** Saving two jobs with the same title and company (up to case) stores
        one row and returns its id both times. */
    method SaveJobPostingTwice(job1: Job, job2: Job, now1: int, now2: int) returns (id1: Option<int>, id2: Option<int>)
      requires Valid()
      requires "title" in job1 && "company" in job1 && JobKey(job1) == JobKey(job2)
      modifies this
      ensures Valid()
      ensures id1.Some? && id1 == id2
      ensures postings.Keys <= old(postings).Keys + {id1.value}
    {
      id1 := SaveJobPosting(job1, now1);
      id2 := SaveJobPosting(job2, now2);
    }

    /** `save_job_analysis`: INSERT OR REPLACE with nothing unique besides
        the row id, so it always appends a row. */
    method SaveJobAnalysis(jobId: int, analysis: Analysis, now: int) returns (ok: bool)
      requires Valid()
      modifies this
      ensures Valid()
      ensures ok
      ensures analyses == old(analyses)[old(nextAnalysisId) := AnalysisRow(jobId, analysis, now)]
      ensures nextAnalysisId == old(nextAnalysisId) + 1
      ensures postings == old(postings) && applications == old(applications) && resumes == old(resumes)
      ensures nextPostingId == old(nextPostingId) && nextApplicationId == old(nextApplicationId)
              && nextResumeId == old(nextResumeId)
    {
      analyses := analyses[nextAnalysisId := AnalysisRow(jobId, analysis, now)];
      nextAnalysisId := nextAnalysisId + 1;
      ok := true;
    }

    /** `create_application`: a new row with status 'approved' (not the
        column default 'pending') and no response; the job is not looked
        up. */
    method CreateApplication(jobId: int, coverLetter: Option<string>, notes: Option<string>, now: int)
      returns (id: int)
      requires Valid()
      modifies this
      ensures Valid()
      ensures id == old(nextApplicationId) && id !in old(applications)
      ensures applications == old(applications)[id :=
                ApplicationRow(jobId, "approved", None, coverLetter, notes, false, None, None, now, now)]
      ensures nextApplicationId == old(nextApplicationId) + 1
      ensures postings == old(postings) && analyses == old(analyses) && resumes == old(resumes)
      ensures nextPostingId == old(nextPostingId) && nextAnalysisId == old(nextAnalysisId)
              && nextResumeId == old(nextResumeId)
    {
      id := nextApplicationId;
      applications := applications[id :=
        ApplicationRow(jobId, "approved", None, coverLetter, notes, false, None, None, now, now)];
      nextApplicationId := nextApplicationId + 1;
    }

    /** `update_application_status`: status and updated_at always change;
        applied_at only for 'applied'; the response columns only with a
        non-empty response type; notes only when non-empty. */
    method UpdateApplicationStatus(applicationId: int, status: string, responseType: Option<string>,
                                   notes: Option<string>, now: int) returns (ok: bool)
      requires Valid()
      modifies this
      ensures Valid()
      ensures ok <==> applicationId in old(applications)
      ensures applications.Keys == old(applications).Keys
      ensures forall k :: k in applications && k != applicationId ==> applications[k] == old(applications)[k]
      ensures ok ==>
        var r, o := applications[applicationId], old(applications)[applicationId];
        && r.status == status && r.updatedAt == now
        && r.appliedAt == (if status == "applied" then Some(now) else o.appliedAt)
        && r.responseReceived == (if Truthy(responseType) then true else o.responseReceived)
        && r.responseType == (if Truthy(responseType) then responseType else o.responseType)
        && r.responseDate == (if Truthy(responseType) then Some(now) else o.responseDate)
        && r.notes == (if Truthy(notes) then notes else o.notes)
        && r.jobId == o.jobId && r.coverLetter == o.coverLetter && r.createdAt == o.createdAt
      ensures postings == old(postings) && analyses == old(analyses) && resumes == old(resumes)
      ensures nextPostingId == old(nextPostingId) && nextAnalysisId == old(nextAnalysisId)
              && nextApplicationId == old(nextApplicationId) && nextResumeId == old(nextResumeId)
    {
      ok := applicationId in applications;
      if ok {
        var r := applications[applicationId].(status := status, updatedAt := now);
        if status == "applied" {
          r := r.(appliedAt := Some(now));
        }
        if Truthy(responseType) {
          r := r.(responseReceived := true, responseType := responseType, responseDate := Some(now));
        }
        if Truthy(notes) {
          r := r.(notes := notes);
        }
        applications := applications[applicationId := r];
      }
    }

    /** The UPDATE shared by `mark_job_reviewed`, `mark_job_interested` and
        `mark_job_not_interested`. */
    method SetReviewStatus(jobId: int, status: string, notes: Option<string>, now: int) returns (ok: bool)
      requires Valid()
      modifies this`postings
      ensures Valid()
      ensures ok <==> jobId in old(postings)
      ensures postings == if ok then old(postings)[jobId := old(postings)[jobId].(
                  reviewStatus := status, reviewNotes := notes, reviewedAt := Some(now))]
                else old(postings)
    {
      ok := jobId in postings;
      if ok {
        postings := postings[jobId := postings[jobId].(
          reviewStatus := status, reviewNotes := notes, reviewedAt := Some(now))];
      }
    }

    /** `mark_job_reviewed`: from any status; the notes are overwritten even
        with None. */
    method MarkJobReviewed(jobId: int, notes: Option<string>, now: int) returns (ok: bool)
      requires Valid()
      modifies this`postings
      ensures Valid()
      ensures ok <==> jobId in old(postings)
      ensures postings == if ok then old(postings)[jobId := old(postings)[jobId].(
                  reviewStatus := "reviewed", reviewNotes := notes, reviewedAt := Some(now))]
                else old(postings)
    {
      ok := SetReviewStatus(jobId, "reviewed", notes, now);
    }

    /** `mark_job_interested` */
    method MarkJobInterested(jobId: int, notes: Option<string>, now: int) returns (ok: bool)
      requires Valid()
      modifies this`postings
      ensures Valid()
      ensures ok <==> jobId in old(postings)
      ensures postings == if ok then old(postings)[jobId := old(postings)[jobId].(
                  reviewStatus := "interested", reviewNotes := notes, reviewedAt := Some(now))]
                else old(postings)
    {
      ok := SetReviewStatus(jobId, "interested", notes, now);
    }

    /** `mark_job_not_interested` */
    method MarkJobNotInterested(jobId: int, notes: Option<string>, now: int) returns (ok: bool)
      requires Valid()
      modifies this`postings
      ensures Valid()
      ensures ok <==> jobId in old(postings)
      ensures postings == if ok then old(postings)[jobId := old(postings)[jobId].(
                  reviewStatus := "not_interested", reviewNotes := notes, reviewedAt := Some(now))]
                else old(postings)
    {
      ok := SetReviewStatus(jobId, "not_interested", notes, now);
    }

    /** `delete_job`: the job's analyses and applications go first, then the
        posting; the result says whether the posting existed. */
    method DeleteJob(jobId: int) returns (ok: bool)
      requires Valid()
      modifies this
      ensures Valid()
      ensures ok <==> jobId in old(postings)
      ensures postings == old(postings) - {jobId}
      ensures forall k :: k in analyses <==> k in old(analyses) && old(analyses)[k].jobId != jobId
      ensures forall k :: k in analyses ==> analyses[k] == old(analyses)[k]
      ensures forall k :: k in applications <==> k in old(applications) && old(applications)[k].jobId != jobId
      ensures forall k :: k in applications ==> applications[k] == old(applications)[k]
      ensures resumes == old(resumes)
      ensures nextPostingId == old(nextPostingId) && nextAnalysisId == old(nextAnalysisId)
              && nextApplicationId == old(nextApplicationId) && nextResumeId == old(nextResumeId)
    {
      analyses := map k | k in analyses && analyses[k].jobId != jobId :: analyses[k];
      applications := map k | k in applications && applications[k].jobId != jobId :: applications[k];
      ok := jobId in postings;
      postings := postings - {jobId};
    }

    /** `save_resume`: every stored resume is deactivated, then the new one
        is inserted active. */
    method SaveResume(filename: string, filePath: string, fileSize: int, parsedData: Option<string>, now: int)
      returns (id: int)
      requires Valid()
      modifies this
      ensures Valid()
      ensures id == old(nextResumeId) && id !in old(resumes)
      ensures resumes.Keys == old(resumes).Keys + {id}
      ensures resumes[id] == ResumeRow(filename, filePath, fileSize, now, true, parsedData)
      ensures forall k :: k in old(resumes) ==> resumes[k] == old(resumes)[k].(isActive := false)
      ensures forall k :: k in resumes && resumes[k].isActive ==> k == id
      ensures GetActiveResume() == Some((id, resumes[id]))
      ensures postings == old(postings) && analyses == old(analyses) && applications == old(applications)
      ensures nextResumeId == old(nextResumeId) + 1
      ensures nextPostingId == old(nextPostingId) && nextAnalysisId == old(nextAnalysisId)
              && nextApplicationId == old(nextApplicationId)
    {
      id := nextResumeId;
      var inactive := map k | k in resumes :: resumes[k].(isActive := false);
      resumes := inactive[id := ResumeRow(filename, filePath, fileSize, now, true, parsedData)];
      nextResumeId := nextResumeId + 1;
    }

    /** `get_active_resume`: the row and its id, or None. */
    function GetActiveResume(): (r: Option<(int, ResumeRow)>)
      reads this
      ensures r.Some? ==> r.value.0 in resumes && resumes[r.value.0] == r.value.1 && r.value.1.isActive
      ensures r.None? <==> forall k :: k in resumes && 0 <= k < nextResumeId ==> !resumes[k].isActive
    {
      match LatestActive(resumes, nextResumeId)
      case None => None
      case Some(k) => Some((k, resumes[k]))
    }

    /** The unpaginated review listing: the joined rows by `scraped_at`
        descending, ties in id order. */
    function Listing(statusFilter: string, sourceFilter: string): seq<JobRow>
      reads this
    {
      SortDesc(Joined(postings, analyses, nextPostingId, nextAnalysisId, statusFilter, sourceFilter), ScrapedAt)
    }

    /** `get_all_jobs` */
    function GetAllJobs(limit: int, offset: int, statusFilter: string, sourceFilter: string): (r: seq<JobRow>)
      reads this
      ensures limit >= 0 ==> |r| <= limit
      ensures SortedDesc(r, ScrapedAt)
      ensures forall i :: 0 <= i < |r| ==>
                r[i].id in postings && r[i].posting == postings[r[i].id]
                && MatchesFilters(r[i].posting, statusFilter, sourceFilter)
    {
      var joined := Joined(postings, analyses, nextPostingId, nextAnalysisId, statusFilter, sourceFilter);
      var rows := Listing(statusFilter, sourceFilter);
      SortDescSorted(joined, ScrapedAt);
      PageOfSorted(rows, ScrapedAt, limit, offset);
      assert forall i :: 0 <= i < |rows| ==> rows[i] in multiset(joined);
      Page(rows, limit, offset)
    }

    /** `get_jobs_count` */
    function GetJobsCount(statusFilter: string, sourceFilter: string): (n: nat)
      reads this
      ensures n == |set k | k in postings && 0 <= k < nextPostingId && MatchesFilters(postings[k], statusFilter, sourceFilter)|
    {
      CountIdsIsCardinality(postings, nextPostingId, JobFilter(statusFilter, sourceFilter));
      assert IdsWhere(postings, nextPostingId, JobFilter(statusFilter, sourceFilter))
          == set k | k in postings && 0 <= k < nextPostingId && MatchesFilters(postings[k], statusFilter, sourceFilter);
      CountIds(postings, nextPostingId, JobFilter(statusFilter, sourceFilter))
    }

    /** In a valid store the count covers every matching posting, and when
        no posting has two analyses it equals the number of listing rows. */
    lemma JobsCountAgainstListing(statusFilter: string, sourceFilter: string)
      requires Valid()
      ensures GetJobsCount(statusFilter, sourceFilter)
           == |set k | k in postings && MatchesFilters(postings[k], statusFilter, sourceFilter)|
      ensures OneAnalysisPerJob(analyses) ==>
                |Listing(statusFilter, sourceFilter)| == GetJobsCount(statusFilter, sourceFilter)
    {
      assert (set k | k in postings && 0 <= k < nextPostingId && MatchesFilters(postings[k], statusFilter, sourceFilter))
          == (set k | k in postings && MatchesFilters(postings[k], statusFilter, sourceFilter));
      if OneAnalysisPerJob(analyses) {
        JoinedLength(postings, analyses, nextPostingId, nextAnalysisId, statusFilter, sourceFilter);
      }
    }

    /** `get_job_sources`: the distinct sources in ascending order. */
    function GetJobSources(): (r: seq<string>)
      reads this
      ensures StrictlyIncreasing(r)
      ensures Elems(r) == set k | k in postings && 0 <= k < nextPostingId :: postings[k].source
    {
      SortedUniqueIncreasing(SourcesOf(postings, nextPostingId));
      SortedUnique(SourcesOf(postings, nextPostingId))
    }

    /** `get_dashboard_stats`; `since` is the moment seven days before now. */
    function GetDashboardStats(since: int): (s: DashboardStats)
      reads this
      ensures s.highScoreMatches <= s.totalMatchedJobs
      ensures s.appliedCount + s.pendingCount <= s.totalApplications
    {
      CountIdsMonotone(analyses, nextAnalysisId, HighScore, Matched);
      CountIdsDisjoint(applications, nextApplicationId, Applied, Pending, AnyApplication);
      DashboardStats(
        CountIds(analyses, nextAnalysisId, Matched),
        CountIds(analyses, nextAnalysisId, HighScore),
        CountIds(applications, nextApplicationId, AnyApplication),
        CountIds(applications, nextApplicationId, Applied),
        CountIds(applications, nextApplicationId, Pending),
        CountIds(postings, nextPostingId, (p: Posting) => p.scrapedAt > since))
    }

    /** In a valid store the dashboard's totals are the table sizes. */
    lemma TotalApplicationsIsRowCount(since: int)
      requires Valid()
      ensures GetDashboardStats(since).totalApplications == |applications|
    {
      CountIdsIsCardinality(applications, nextApplicationId, AnyApplication);
      assert IdsWhere(applications, nextApplicationId, AnyApplication) == applications.Keys;
    }
  }
}
