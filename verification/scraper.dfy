/** The job scraper: the ordered chain of job sources, first-seen-wins
    de-duplication, the rule-based "senior data role" classifier, URL
    completion, source metadata and the sample-job generators.

    Network access is outside the model: what the Indeed feed, the LinkedIn
    public search and the AngelList reachability check return is given as
    parameters, and Python's `random` module is a stream `rand` of natural
    numbers consumed one draw at a time. */
module JobScraper {
  import opened Wrappers
  import opened Text
  import opened Lists
  import opened Records

  /** The `job_search` configuration section as the scraper reads it. */
  datatype SearchSettings = SearchSettings(
    keywords: Option<seq<string>>,
    locations: Option<seq<string>>,
    maxJobsPerDay: Option<int>)

  // ---------------------------------------------------------------------
  // De-duplication (_remove_duplicates)

  /** The keys of a list of jobs. */
  function Keys(jobs: seq<Job>): set<string>
    decreases |jobs|
  {
    if |jobs| == 0 then {} else Keys(jobs[..|jobs| - 1]) + {JobKey(jobs[|jobs| - 1])}
  }

  lemma KeysSnoc(jobs: seq<Job>, x: Job)
    ensures Keys(jobs + [x]) == Keys(jobs) + {JobKey(x)}
  {
    assert (jobs + [x])[..|jobs|] == jobs;
  }

  lemma {:induction false} KeysMember(jobs: seq<Job>, key: string)
    ensures key in Keys(jobs) <==> exists i :: 0 <= i < |jobs| && JobKey(jobs[i]) == key
    decreases |jobs|
  {
    if |jobs| > 0 {
      var pre := jobs[..|jobs| - 1];
      KeysMember(pre, key);
      if key in Keys(pre) {
        var i :| 0 <= i < |pre| && JobKey(pre[i]) == key;
        assert JobKey(jobs[i]) == key;
      }
      if exists i :: 0 <= i < |jobs| && JobKey(jobs[i]) == key {
        var i :| 0 <= i < |jobs| && JobKey(jobs[i]) == key;
        if i < |pre| {
          assert JobKey(pre[i]) == key;
        }
      }
    }
  }

  predicate UniqueKeys(jobs: seq<Job>) {
    forall i, j :: 0 <= i < j < |jobs| ==> JobKey(jobs[i]) != JobKey(jobs[j])
  }

  /** The jobs kept by de-duplication: each job is kept unless an earlier
      kept job has the same key. */
  function Dedup(jobs: seq<Job>): seq<Job>
    decreases |jobs|
  {
    if |jobs| == 0 then []
    else
      var prev := Dedup(jobs[..|jobs| - 1]);
      var last := jobs[|jobs| - 1];
      if JobKey(last) in Keys(prev) then prev else prev + [last]
  }

  /** `_remove_duplicates`: one pass with a set of keys already seen. */
  method RemoveDuplicates(jobs: seq<Job>) returns (unique: seq<Job>)
    ensures unique == Dedup(jobs)
    ensures UniqueKeys(unique)
    ensures Keys(unique) == Keys(jobs)
  {
    var seen: set<string> := {};
    unique := [];
    for i := 0 to |jobs|
      invariant unique == Dedup(jobs[..i])
      invariant seen == Keys(unique)
    {
      var key := JobKey(jobs[i]);
      assert jobs[..i + 1][..i] == jobs[..i];
      if key !in seen {
        KeysSnoc(unique, jobs[i]);
        seen := seen + {key};
        unique := unique + [jobs[i]];
      }
    }
    assert jobs[..|jobs|] == jobs;
    DedupUnique(jobs);
    DedupKeys(jobs);
  }

  /** Every key of the input survives de-duplication, and no other. */
  lemma {:induction false} DedupKeys(jobs: seq<Job>)
    ensures Keys(Dedup(jobs)) == Keys(jobs)
    decreases |jobs|
  {
    if |jobs| > 0 {
      var pre := jobs[..|jobs| - 1];
      var last := jobs[|jobs| - 1];
      var prev := Dedup(pre);
      DedupKeys(pre);
      assert Keys(jobs) == Keys(pre) + {JobKey(last)};
      if JobKey(last) in Keys(prev) {
        assert Dedup(jobs) == prev;
      } else {
        assert Dedup(jobs) == prev + [last];
        KeysSnoc(prev, last);
      }
    }
  }

  /** No two kept jobs share a key. */
  lemma {:induction false} DedupUnique(jobs: seq<Job>)
    ensures UniqueKeys(Dedup(jobs))
    decreases |jobs|
  {
    if |jobs| > 0 {
      var pre := jobs[..|jobs| - 1];
      var last := jobs[|jobs| - 1];
      DedupUnique(pre);
      var d := Dedup(pre);
      KeysMember(d, JobKey(last));
    }
  }

  /** A list without repeated keys is left as it is. */
  lemma {:induction false} DedupOfUnique(jobs: seq<Job>)
    requires UniqueKeys(jobs)
    ensures Dedup(jobs) == jobs
    decreases |jobs|
  {
    if |jobs| > 0 {
      var pre := jobs[..|jobs| - 1];
      var last := jobs[|jobs| - 1];
      DedupOfUnique(pre);
      KeysMember(pre, JobKey(last));
      assert jobs == pre + [last];
    }
  }

  /** De-duplicating twice is de-duplicating once. */
  lemma DedupIdempotent(jobs: seq<Job>)
    ensures Dedup(Dedup(jobs)) == Dedup(jobs)
  {
    DedupUnique(jobs);
    DedupOfUnique(Dedup(jobs));
  }

  /** The kept jobs appear in the input in the same order. */
  lemma {:induction false} DedupSubsequence(jobs: seq<Job>)
    ensures IsSubsequence(Dedup(jobs), jobs)
    decreases |jobs|
  {
    if |jobs| > 0 {
      var pre := jobs[..|jobs| - 1];
      var last := jobs[|jobs| - 1];
      DedupSubsequence(pre);
      var d := Dedup(pre);
      if JobKey(last) !in Keys(d) {
        assert (d + [last])[..|d|] == d;
      }
    }
  }

  /** `jobs[i]` is the first job of the list with its key. */
  predicate FirstOfKey(jobs: seq<Job>, i: nat)
    requires i < |jobs|
  {
    forall j :: 0 <= j < i ==> JobKey(jobs[j]) != JobKey(jobs[i])
  }

  /** Reference definition: the jobs among the first `n` that are the first
      of their key, in input order. */
  function FirstOccurrences(jobs: seq<Job>, n: nat): seq<Job>
    requires n <= |jobs|
  {
    if n == 0 then []
    else FirstOccurrences(jobs, n - 1) + (if FirstOfKey(jobs, n - 1) then [jobs[n - 1]] else [])
  }

  /** One more job: kept exactly when its key is new. */
  lemma DedupSnoc(pre: seq<Job>, x: Job)
    ensures Dedup(pre + [x]) == if JobKey(x) in Keys(pre) then Dedup(pre) else Dedup(pre) + [x]
  {
    assert (pre + [x])[..|pre|] == pre;
    DedupKeys(pre);
  }

  /** De-duplication keeps exactly the first job of every key. */
  lemma {:induction false} DedupIsFirstOccurrences(jobs: seq<Job>, n: nat)
    requires n <= |jobs|
    ensures Dedup(jobs[..n]) == FirstOccurrences(jobs, n)
  {
    if n > 0 {
      DedupIsFirstOccurrences(jobs, n - 1);
      DedupStep(jobs, n);
    }
  }

  lemma DedupStep(jobs: seq<Job>, n: nat)
    requires 0 < n <= |jobs|
    ensures Dedup(jobs[..n]) ==
      if FirstOfKey(jobs, n - 1) then Dedup(jobs[..n - 1]) + [jobs[n - 1]] else Dedup(jobs[..n - 1])
  {
    var pre := jobs[..n - 1];
    var x := jobs[n - 1];
    assert jobs[..n] == pre + [x];
    DedupSnoc(pre, x);
    FirstOfKeyIsNewKey(jobs, n - 1);
  }

  /** A job is the first of its key exactly when no earlier job has that key. */
  lemma FirstOfKeyIsNewKey(jobs: seq<Job>, i: nat)
    requires i < |jobs|
    ensures JobKey(jobs[i]) in Keys(jobs[..i]) <==> !FirstOfKey(jobs, i)
  {
    var pre := jobs[..i];
    KeysMember(pre, JobKey(jobs[i]));
    assert forall j :: 0 <= j < i ==> pre[j] == jobs[j];
  }

  // ---------------------------------------------------------------------
  // The senior data role classifier (_is_senior_data_role)

  const SeniorIndicators: seq<string> := [
    "senior", "sr.", "lead", "principal", "head of", "director",
    "manager", "chief", "vp", "vice president", "executive",
    "architect", "staff", "expert", "specialist"]

  const DataKeywords: seq<string> := [
    "data", "analytics", "analyst", "scientist", "engineer",
    "machine learning", "ml", "ai", "artificial intelligence",
    "business intelligence", "bi", "tableau", "power bi",
    "sql", "python", "r ", " r,", "statistics", "statistical",
    "insight", "reporting", "dashboard", "visualization",
    "database", "warehouse", "etl", "pipeline", "big data",
    "hadoop", "spark", "aws", "azure", "gcp", "cloud",
    "research", "predictive", "modeling", "algorithm"]

  const ExperienceIndicators: seq<string> := [
    "5+ years", "5-", "6+ years", "7+ years", "8+ years",
    "experienced", "expert level", "advanced", "leadership",
    "team lead", "mentor", "strategic", "enterprise"]

  const JuniorIndicators: seq<string> := [
    "junior", "jr.", "entry", "entry-level", "graduate", "intern",
    "trainee", "apprentice", "0-2 years", "0-1 years", "fresh"]

  function LowerTitle(job: Job): string { Lower(Get(job, "title", "")) }
  function LowerDescription(job: Job): string { Lower(Get(job, "description", "")) }
  function LowerRequirements(job: Job): string { Lower(Get(job, "requirements", "")) }

  /** Title, description and requirements, lower-cased and joined by spaces. */
  function CombinedText(job: Job): string {
    LowerTitle(job) + " " + LowerDescription(job) + " " + LowerRequirements(job)
  }

  /** Decision order: a junior indicator rejects; a data keyword together
      with a seniority or experience cue accepts; a data keyword in the title
      alone accepts; anything else is rejected. */
  predicate IsSeniorDataRole(job: Job) {
    var text := CombinedText(job);
    if ContainsAny(text, JuniorIndicators) then false
    else if ContainsAny(text, DataKeywords)
         && (ContainsAny(text, SeniorIndicators) || ContainsAny(text, ExperienceIndicators)) then true
    else ContainsAny(LowerTitle(job), DataKeywords)
  }

  /** One of the phrases occurs in one of the three fields. */
  predicate InSomeField(job: Job, phrases: seq<string>) {
    ContainsAny(LowerTitle(job), phrases)
    || ContainsAny(LowerDescription(job), phrases)
    || ContainsAny(LowerRequirements(job), phrases)
  }

  lemma InSomeFieldCombined(job: Job, phrases: seq<string>)
    requires InSomeField(job, phrases)
    ensures ContainsAny(CombinedText(job), phrases)
  {
    var t, d, r := LowerTitle(job), LowerDescription(job), LowerRequirements(job);
    ContainsAnyInConcat(t, " ", phrases);
    ContainsAnyInConcat(t + " ", d, phrases);
    ContainsAnyInConcat(t + " " + d, " ", phrases);
    ContainsAnyInConcat(t + " " + d + " ", r, phrases);
  }

  /** A junior indicator in any one field rejects the job, whatever the
      other fields say. */
  lemma JuniorRejected(job: Job)
    requires InSomeField(job, JuniorIndicators)
    ensures !IsSeniorDataRole(job)
  {
    InSomeFieldCombined(job, JuniorIndicators);
  }

  /** Without a junior indicator, a data keyword and a seniority or
      experience cue (each in any field) accept the job. */
  lemma CueAccepted(job: Job)
    requires !ContainsAny(CombinedText(job), JuniorIndicators)
    requires InSomeField(job, DataKeywords)
    requires InSomeField(job, SeniorIndicators) || InSomeField(job, ExperienceIndicators)
    ensures IsSeniorDataRole(job)
  {
    InSomeFieldCombined(job, DataKeywords);
    if InSomeField(job, SeniorIndicators) {
      InSomeFieldCombined(job, SeniorIndicators);
    } else {
      InSomeFieldCombined(job, ExperienceIndicators);
    }
  }

  /** Without a junior indicator, a data keyword in the title is enough. */
  lemma TitleKeywordAccepted(job: Job)
    requires !ContainsAny(CombinedText(job), JuniorIndicators)
    requires ContainsAny(LowerTitle(job), DataKeywords)
    ensures IsSeniorDataRole(job)
  {
  }

  /** An accepted job mentions a data keyword and no junior indicator. */
  lemma AcceptedHasDataKeyword(job: Job)
    requires IsSeniorDataRole(job)
    ensures ContainsAny(CombinedText(job), DataKeywords)
    ensures !ContainsAny(CombinedText(job), JuniorIndicators)
  {
    if !ContainsAny(CombinedText(job), DataKeywords) {
      assert ContainsAny(LowerTitle(job), DataKeywords);
      InSomeFieldCombined(job, DataKeywords);
    }
  }

  lemma JuniorDataAnalystRejected(job: Job)
    requires Get(job, "title", "") == "Junior Data Analyst"
    ensures !IsSeniorDataRole(job)
  {
    assert OccursAt(LowerTitle(job), JuniorIndicators[0], 0);
    JuniorRejected(job);
  }

  lemma SeniorDataEngineerAccepted(job: Job)
    requires Get(job, "title", "") == "Senior Data Engineer"
    requires Get(job, "requirements", "") == "5+ years"
    requires !ContainsAny(CombinedText(job), JuniorIndicators)
    ensures IsSeniorDataRole(job)
  {
    assert OccursAt(LowerTitle(job), DataKeywords[0], 7);
    assert OccursAt(LowerTitle(job), SeniorIndicators[0], 0);
    assert OccursAt(LowerRequirements(job), ExperienceIndicators[0], 0);
    CueAccepted(job);
  }

  lemma DataScientistAccepted(job: Job)
    requires Get(job, "title", "") == "Data Scientist"
    requires !ContainsAny(CombinedText(job), JuniorIndicators)
    ensures IsSeniorDataRole(job)
  {
    assert OccursAt(LowerTitle(job), DataKeywords[0], 0);
  }

  /** `_filter_senior_data_roles`: the accepted jobs, in input order. */
  method FilterSeniorDataRoles(jobs: seq<Job>) returns (filtered: seq<Job>)
    ensures filtered == Keep(jobs, IsSeniorDataRole)
  {
    filtered := [];
    for i := 0 to |jobs|
      invariant filtered == Keep(jobs[..i], IsSeniorDataRole)
    {
      assert jobs[..i + 1] == jobs[..i] + [jobs[i]];
      KeepAppend(jobs[..i], [jobs[i]], IsSeniorDataRole);
      if IsSeniorDataRole(jobs[i]) {
        filtered := filtered + [jobs[i]];
      }
    }
    assert jobs[..|jobs|] == jobs;
  }

  // ---------------------------------------------------------------------
  // URL completion (_ensure_full_url)

  function EnsureFullUrl(url: string, baseUrl: string): (r: string)
    ensures r == "" <==> url == ""
    ensures |url| <= |r| && r[|r| - |url|..] == url
  {
    if url == "" then ""
    else if StartsWith(url, "http") then url
    else if baseUrl != "" && StartsWith(url, "/") then RStripChar(baseUrl, '/') + url
    else url
  }

  /** A URL that is absolute, or that cannot be completed, is left alone. */
  lemma EnsureFullUrlCases(url: string, baseUrl: string)
    ensures StartsWith(url, "http") ==> EnsureFullUrl(url, baseUrl) == url
    ensures !StartsWith(url, "/") ==> EnsureFullUrl(url, baseUrl) == url
    ensures baseUrl == "" ==> EnsureFullUrl(url, baseUrl) == url
  {
  }

  /** Completing a completed URL changes nothing, unless the base itself is a
      relative path starting with '/'. */
  lemma EnsureFullUrlIdempotent(url: string, baseUrl: string)
    requires !StartsWith(baseUrl, "/")
    ensures EnsureFullUrl(EnsureFullUrl(url, baseUrl), baseUrl) == EnsureFullUrl(url, baseUrl)
  {
    var r := EnsureFullUrl(url, baseUrl);
    if url != "" && !StartsWith(url, "http") && baseUrl != "" && StartsWith(url, "/") {
      var b := RStripChar(baseUrl, '/');
      if b != "" {
        assert r[0] == baseUrl[0];
        assert !StartsWith(r, "/");
      } else {
        assert r == url;
      }
    }
  }

  // ---------------------------------------------------------------------
  // Source metadata (_get_source_metadata)

  datatype Origin = LinkedIn | Indeed | Glassdoor | AngelList | CareerPage {
    function Name(): string {
      match this
      case LinkedIn => "LinkedIn"
      case Indeed => "Indeed"
      case Glassdoor => "Glassdoor"
      case AngelList => "AngelList"
      case CareerPage => "Company Career Page"
    }
    function Icon(): string {
      match this
      case LinkedIn => "fab fa-linkedin"
      case Indeed => "fas fa-search"
      case Glassdoor => "fas fa-door-open"
      case AngelList => "fas fa-rocket"
      case CareerPage => "fas fa-building"
    }
    function Color(): string {
      match this
      case LinkedIn => "#0077b5"
      case Indeed => "#2557a7"
      case Glassdoor => "#0caa41"
      case AngelList => "#fd5622"
      case CareerPage => "#6f42c1"
    }
  }

  datatype SourceMeta = SourceMeta(source: string, icon: string, color: string)

  function MetaOf(o: Origin): SourceMeta {
    SourceMeta(o.Name(), o.Icon(), o.Color())
  }

  const DefaultIcon: string := "fas fa-external-link-alt"
  const DefaultColor: string := "#6c757d"

  const CareerDomains: seq<string> := [
    "netflix.com", "spotify.com", "uber.com", "airbnb.com", "tesla.com", "meta.com"]

  /** The site recognised from the lower-cased URL, checked in order. */
  function UrlOrigin(url: string): Option<Origin> {
    var u := Lower(url);
    if Contains(u, "linkedin.com") then Some(LinkedIn)
    else if Contains(u, "indeed.com") then Some(Indeed)
    else if Contains(u, "glassdoor.com") then Some(Glassdoor)
    else if Contains(u, "angel.co") || Contains(u, "wellfound.com") then Some(AngelList)
    else if ContainsAny(u, CareerDomains) then Some(CareerPage)
    else None
  }

  /** The site recognised from the lower-cased source name, checked in order. */
  function NameOrigin(source: string): Option<Origin> {
    var s := Lower(source);
    if Contains(s, "linkedin") then Some(LinkedIn)
    else if Contains(s, "indeed") then Some(Indeed)
    else if Contains(s, "glassdoor") then Some(Glassdoor)
    else if Contains(s, "angel") then Some(AngelList)
    else if Contains(s, "company") || Contains(s, "career") then Some(CareerPage)
    else None
  }

  /** The URL decides first, then the source name; unrecognised sources
      keep their name with the default icon and colour. */
  function SourceMetadata(source: string, url: string): (m: SourceMeta)
    ensures UrlOrigin(url) == None && NameOrigin(source) == None
            ==> m == SourceMeta(source, DefaultIcon, DefaultColor)
    ensures m.source == source || exists o: Origin :: m == MetaOf(o)
  {
    match UrlOrigin(url)
    case Some(o) => MetaOf(o)
    case None =>
      match NameOrigin(source)
      case Some(o) => MetaOf(o)
      case None => SourceMeta(source, DefaultIcon, DefaultColor)
  }

  /** The metadata as the dictionary merged into a job. */
  function MetaFields(m: SourceMeta): map<string, string> {
    map["source" := m.source, "source_icon" := m.icon, "source_color" := m.color]
  }

  /** A recognised URL decides alone: the source name plays no part. */
  lemma UrlTakesPrecedence(s1: string, s2: string, url: string)
    requires UrlOrigin(url).Some?
    ensures SourceMetadata(s1, url) == SourceMetadata(s2, url) == MetaOf(UrlOrigin(url).value)
  {
  }

  lemma LinkedInNameOrigin()
    ensures NameOrigin("LinkedIn") == Some(LinkedIn)
  {
    assert OccursAt(Lower("LinkedIn"), "linkedin", 0);
  }

  lemma IndeedNameOrigin()
    ensures NameOrigin("Indeed") == Some(Indeed)
  {
    assert OccursAt(Lower("Indeed"), "indeed", 0);
  }

  lemma GlassdoorNameOrigin()
    ensures NameOrigin("Glassdoor") == Some(Glassdoor)
  {
    assert Lower("Glassdoor") == "glassdoor";
    NotContainsByChar("glassdoor", "linkedin", 3);
    NotContainsByChar("glassdoor", "indeed", 0);
    assert OccursAt("glassdoor", "glassdoor", 0);
  }

  lemma AngelListNameOrigin()
    ensures NameOrigin("AngelList") == Some(AngelList)
  {
    assert Lower("AngelList") == "angellist";
    NotContainsByChar("angellist", "linkedin", 3);
    NotContainsByChar("angellist", "indeed", 2);
    NotContainsByChar("angellist", "glassdoor", 5);
    assert OccursAt("angellist", "angel", 0);
  }

  lemma CareerPageNameOrigin()
    ensures NameOrigin("Company Career Page") == Some(CareerPage)
  {
    var s := "company career page";
    var t := "Company Career Page";
    assert Lower(t) == s by {
      forall i | 0 <= i < |t|
        ensures Lower(t)[i] == s[i]
      {
        assert Lower(t)[i] == LowerChar(t[i]);
      }
    }
    NotContainsByChar(s, "linkedin", 0);
    NotContainsByChar(s, "indeed", 0);
    NotContainsByChar(s, "glassdoor", 1);
    NotContainsByChar(s, "angel", 4);
    assert OccursAt(s, "company", 0);
  }

  /** Every canonical name is recognised as its own site. */
  lemma NameOriginOfName(o: Origin)
    ensures NameOrigin(o.Name()) == Some(o)
  {
    match o
    case LinkedIn => LinkedInNameOrigin();
    case Indeed => IndeedNameOrigin();
    case Glassdoor => GlassdoorNameOrigin();
    case AngelList => AngelListNameOrigin();
    case CareerPage => CareerPageNameOrigin();
  }

  /** Looking up the metadata of its own result changes nothing. */
  lemma SourceMetadataIdempotent(source: string, url: string)
    ensures SourceMetadata(SourceMetadata(source, url).source, url) == SourceMetadata(source, url)
  {
    if UrlOrigin(url).None? {
      match NameOrigin(source)
      case Some(o) => NameOriginOfName(o);
      case None =>
    }
  }

  // ---------------------------------------------------------------------
  // Indeed feed items (_scrape_indeed, per item)

  /** An RSS item; a missing element is None. */
  datatype FeedItem = FeedItem(title: Option<string>, link: Option<string>, description: Option<string>, pubDate: Option<string>)

  /** "Job Title - Company": the first two pieces of the split on " - ",
      stripped; a title without the separator keeps an unknown company. */
  function IndeedTitleSplit(title: string): (r: (string, string))
    ensures !Contains(title, " - ") ==> r == (title, "Unknown Company")
    ensures Contains(title, " - ") ==> Stripped(r.0) && Stripped(r.1)
  {
    if Contains(title, " - ") then
      var parts := SplitStr(title, " - ");
      (Strip(parts[0]), Strip(parts[1]))
    else
      (title, "Unknown Company")
  }

  /** The first separator of "T - C" is the one after T when none starts
      inside T. */
  lemma SeparatorAfterTitle(t: string, c: string)
    requires !Contains(t + " -", " - ")
    ensures Find(t + " - " + c, " - ") == |t|
  {
    var s := t + " - " + c;
    assert OccursAt(s, " - ", |t|);
    forall j | 0 <= j < |t| ensures !OccursAt(s, " - ", j) {
      assert (t + " -")[j..j + 3] == s[j..j + 3];
      assert !OccursAt(t + " -", " - ", j);
    }
  }

  /** Splitting "T - C" gives back T and C when both are stripped, C holds
      no separator and none starts inside T. */
  lemma IndeedTitleSplitRoundTrip(t: string, c: string)
    requires Stripped(t) && Stripped(c)
    requires !Contains(t + " -", " - ")
    requires !Contains(c, " - ")
    ensures IndeedTitleSplit(t + " - " + c) == (t, c)
  {
    var s := t + " - " + c;
    SeparatorAfterTitle(t, c);
    assert s[|t| + 3..] == c;
    assert s[..|t|] == t;
    SplitStrNoSep(c, " - ");
    assert SplitStr(s, " - ") == [t] + SplitStr(c, " - ") == [t, c];
    StripOfStripped(t);
    StripOfStripped(c);
  }

  /** `BeautifulSoup(d, 'html.parser').get_text()` is an oracle `htmlText`;
      `datetime.strptime` is an oracle `parseDate` giving the formatted date
      or None; `today` is the current date. */
  function IndeedJob(item: FeedItem, location: string, htmlText: string -> string,
                     parseDate: string -> Option<string>, today: string): (job: Job)
    ensures "description" in job && |job["description"]| <= 500
    ensures "source" in job
    ensures job["source"] == SourceMetadata("Indeed", item.link.GetOr("")).source
  {
    var rawTitle := item.title.GetOr("Unknown Title");
    var link := item.link.GetOr("");
    var description := item.description.GetOr("");
    var pubDate := item.pubDate.GetOr("");
    var (title, company) := IndeedTitleSplit(rawTitle);
    var posted := if pubDate != "" then parseDate(pubDate).GetOr(today) else today;
    var base := map[
      "title" := title, "company" := company, "location" := location,
      "description" := if description != "" then Prefix(htmlText(description), 500) else "",
      "requirements" := "", "url" := link, "salary" := "",
      "posted_date" := posted, "source" := "Indeed"];
    var meta := MetaFields(SourceMetadata("Indeed", link));
    assert "description" !in meta && "source" in meta;
    base + meta
  }

  /** An Indeed item whose link names no known site is labelled Indeed. */
  lemma IndeedJobSource(item: FeedItem, location: string, htmlText: string -> string,
                        parseDate: string -> Option<string>, today: string)
    requires UrlOrigin(item.link.GetOr("")) == None
    ensures IndeedJob(item, location, htmlText, parseDate, today)["source"] == "Indeed"
    ensures IndeedJob(item, location, htmlText, parseDate, today)["source_icon"] == "fas fa-search"
  {
    NameOriginOfName(Indeed);
  }

  // ---------------------------------------------------------------------
  // Sample jobs

  /** `random.randint(lo, hi)` as the `k`-th draw of the stream. */
  function RandInt(rand: nat -> nat, k: nat, lo: nat, hi: nat): (r: nat)
    requires lo <= hi
    ensures lo <= r <= hi
  {
    lo + rand(k) % (hi - lo + 1)
  }

  /** `random.choice(xs)` as the `k`-th draw of the stream. */
  function Choice(rand: nat -> nat, k: nat, xs: seq<string>): (r: string)
    requires |xs| > 0
    ensures r in xs
  {
    xs[rand(k) % |xs|]
  }

  function Salary(lo: nat, hi: nat): string {
    "$" + NatToString(lo) + "k - $" + NatToString(hi) + "k"
  }

  const LinkedInCompanies: seq<string> := ["Deloitte", "PwC", "KPMG", "EY", "Accenture", "IBM", "Capgemini", "Wipro"]
  const AngelCompanies: seq<string> := ["TechFlow AI", "DataSync Solutions", "CloudVault Systems", "AnalyticsPro"]
  const AngelLocations: seq<string> := ["Remote", "San Francisco, CA", "New York, NY", "Austin, TX"]
  const GlassdoorCompanies: seq<string> := ["Microsoft", "Google", "Amazon", "Meta", "Apple", "Salesforce", "Adobe"]

  const LinkedInJobUrl: string := "https://www.linkedin.com/jobs/view/"
  const AngelJobUrl: string := "https://angel.co/company/"
  const GlassdoorJobUrl: string := "https://www.glassdoor.com/job-listing/"

  // Text of the sample postings; the keyword and company are spliced in
  // between these pieces.
  const LinkedInDescriptionHead: string := "We are seeking a talented "
  const LinkedInDescriptionMiddle: string := " to join our "
  const LinkedInDescriptionTail: string :=
    " team. This role involves analyzing "
    + "complex datasets, creating insights, "
    + "and supporting business decision-making "
    + "through data-driven recommendations."
  const LinkedInRequirementsHead: string := "Bachelor's degree in related field, 2+ years experience in "
  const LinkedInRequirementsTail: string := ", proficiency in SQL, Excel, and Python/R"
  const AngelDescriptionHead: string := "Exciting opportunity to work as a "
  const AngelDescriptionTail: string :=
    " at a fast-growing startup. We're "
    + "looking for someone passionate about "
    + "data and technology to join our dynamic "
    + "team."
  const AngelRequirementsHead: string := "3+ years experience in "
  const AngelRequirementsTail: string := ", startup experience preferred, strong analytical skills"
  const GlassdoorDescriptionTail: string :=
    ". Work on cutting-edge projects with "
    + "world-class teams. We offer competitive "
    + "compensation and excellent benefits."
  const GlassdoorRequirementsHead: string := "5+ years in "
  const GlassdoorRequirementsTail: string :=
    ", Bachelor's degree, experience with "
    + "SQL, Python, and data visualization "
    + "tools"

  /** One LinkedIn-style sample; draws k .. k+4 (company, id, two salary
      bounds, age in days). `daysAgo(d)` is today minus d days, formatted. */
  function LinkedInSampleJob(keyword: string, location: string, rand: nat -> nat, daysAgo: int -> string, k: nat): (job: Job)
    ensures HasSource(job, "LinkedIn") && Get(job, "title", "") == TitleCase(keyword)
    ensures Get(job, "location", "") == location && Get(job, "company", "") in LinkedInCompanies
  {
    var company := Choice(rand, k, LinkedInCompanies);
    map[
      "title" := TitleCase(keyword),
      "company" := company,
      "location" := location,
      "description" := LinkedInDescriptionHead + keyword + LinkedInDescriptionMiddle + company + LinkedInDescriptionTail,
      "requirements" := LinkedInRequirementsHead + keyword + LinkedInRequirementsTail,
      "url" := LinkedInJobUrl + NatToString(RandInt(rand, k + 1, 3000000000, 3999999999)),
      "salary" := Salary(RandInt(rand, k + 2, 60, 100), RandInt(rand, k + 3, 110, 150)),
      "posted_date" := daysAgo(RandInt(rand, k + 4, 1, 30)),
      "source" := "LinkedIn"]
  }

  /** One AngelList-style sample; draws k .. k+6 (company, location, the
      company named in the URL, id, two salary bounds, age in days). */
  function AngelSampleJob(keyword: string, rand: nat -> nat, daysAgo: int -> string, k: nat): (job: Job)
    ensures HasSource(job, "AngelList") && Get(job, "title", "") == TitleCase(keyword) + " - Startup"
    ensures Get(job, "company", "") in AngelCompanies && Get(job, "location", "") in AngelLocations
  {
    map[
      "title" := TitleCase(keyword) + " - Startup",
      "company" := Choice(rand, k, AngelCompanies),
      "location" := Choice(rand, k + 1, AngelLocations),
      "description" := AngelDescriptionHead + keyword + AngelDescriptionTail,
      "requirements" := AngelRequirementsHead + keyword + AngelRequirementsTail,
      "url" := AngelJobUrl + ReplaceChar(Lower(Choice(rand, k + 2, AngelCompanies)), ' ', '-')
        + "/jobs/" + NatToString(RandInt(rand, k + 3, 100000, 999999)),
      "salary" := Salary(RandInt(rand, k + 4, 80, 150), RandInt(rand, k + 5, 160, 220)),
      "posted_date" := daysAgo(RandInt(rand, k + 6, 1, 14)),
      "source" := "AngelList"]
  }

  /** One Glassdoor-style sample; draws k .. k+4 (company, id, two salary
      bounds, age in days). */
  function GlassdoorSampleJob(keyword: string, location: string, rand: nat -> nat, daysAgo: int -> string, k: nat): (job: Job)
    ensures HasSource(job, "Glassdoor") && Get(job, "title", "") == "Senior " + TitleCase(keyword)
    ensures Get(job, "location", "") == location && Get(job, "company", "") in GlassdoorCompanies
  {
    var company := Choice(rand, k, GlassdoorCompanies);
    map[
      "title" := "Senior " + TitleCase(keyword),
      "company" := company,
      "location" := location,
      "description" := "Join " + company + " as a Senior " + TitleCase(keyword) + GlassdoorDescriptionTail,
      "requirements" := GlassdoorRequirementsHead + keyword + GlassdoorRequirementsTail,
      "url" := GlassdoorJobUrl + Lower(company) + "-senior-" + ReplaceChar(keyword, ' ', '-')
        + "-" + NatToString(RandInt(rand, k + 1, 1000000, 9999999)),
      "salary" := Salary(RandInt(rand, k + 2, 120, 180), RandInt(rand, k + 3, 200, 280)),
      "posted_date" := daysAgo(RandInt(rand, k + 4, 1, 21)),
      "source" := "Glassdoor"]
  }

  predicate HasSource(job: Job, source: string) {
    Get(job, "source", "") == source
  }

  function TitlesOf(keywords: seq<string>): set<string> {
    set kw | kw in keywords :: TitleCase(kw)
  }

  /** The keywords and locations the LinkedIn samples use: at most three
      keywords (default 'data analyst') and two locations (default 'Remote'). */
  function LinkedInSampleKeywords(cfg: SearchSettings): seq<string> {
    var ks := cfg.keywords.GetOr(["data analyst"]);
    ks[..Min(3, |ks|)]
  }

  function LinkedInSampleLocations(cfg: SearchSettings): seq<string> {
    var ls := cfg.locations.GetOr(["Remote"]);
    ls[..Min(2, |ls|)]
  }

  function LinkedInSampleCount(cfg: SearchSettings): nat {
    |LinkedInSampleKeywords(cfg)| * |LinkedInSampleLocations(cfg)| * 2
  }

  /** `_generate_linkedin_sample_jobs`: two jobs per keyword and location. */
  method GenerateLinkedInSampleJobs(cfg: SearchSettings, rand: nat -> nat, daysAgo: int -> string, k0: nat)
    returns (jobs: seq<Job>, k: nat)
    ensures |jobs| == LinkedInSampleCount(cfg)
    ensures forall j :: 0 <= j < |jobs| ==>
      HasSource(jobs[j], "LinkedIn") && Get(jobs[j], "title", "") in TitlesOf(LinkedInSampleKeywords(cfg))
  {
    var keywords := LinkedInSampleKeywords(cfg);
    var locations := LinkedInSampleLocations(cfg);
    var nl := |locations|;
    jobs := [];
    k := k0;
    for a := 0 to |keywords|
      invariant |jobs| == a * nl * 2
      invariant forall j :: 0 <= j < |jobs| ==>
        HasSource(jobs[j], "LinkedIn") && Get(jobs[j], "title", "") in TitlesOf(keywords)
    {
      for b := 0 to nl
        invariant |jobs| == (a * nl + b) * 2
        invariant forall j :: 0 <= j < |jobs| ==>
          HasSource(jobs[j], "LinkedIn") && Get(jobs[j], "title", "") in TitlesOf(keywords)
      {
        for i := 0 to 2
          invariant |jobs| == (a * nl + b) * 2 + i
          invariant forall j :: 0 <= j < |jobs| ==>
            HasSource(jobs[j], "LinkedIn") && Get(jobs[j], "title", "") in TitlesOf(keywords)
        {
          jobs := jobs + [LinkedInSampleJob(keywords[a], locations[b], rand, daysAgo, k)];
          k := k + 5;
        }
      }
    }
  }

  /** `_generate_angellist_sample_jobs`: two startup jobs for the keyword. */
  method GenerateAngelListSampleJobs(keyword: string, rand: nat -> nat, daysAgo: int -> string, k0: nat)
    returns (jobs: seq<Job>, k: nat)
    ensures |jobs| == 2
    ensures forall j :: 0 <= j < |jobs| ==>
      HasSource(jobs[j], "AngelList") && Get(jobs[j], "title", "") == TitleCase(keyword) + " - Startup"
  {
    jobs := [];
    k := k0;
    for i := 0 to 2
      invariant |jobs| == i
      invariant forall j :: 0 <= j < |jobs| ==>
        HasSource(jobs[j], "AngelList") && Get(jobs[j], "title", "") == TitleCase(keyword) + " - Startup"
    {
      jobs := jobs + [AngelSampleJob(keyword, rand, daysAgo, k)];
      k := k + 7;
    }
  }

  /** `_generate_glassdoor_sample_jobs`: two senior jobs for the keyword, at
      the given location. */
  method GenerateGlassdoorSampleJobs(keyword: string, location: string, rand: nat -> nat, daysAgo: int -> string, k0: nat)
    returns (jobs: seq<Job>, k: nat)
    ensures |jobs| == 2
    ensures forall j :: 0 <= j < |jobs| ==>
      HasSource(jobs[j], "Glassdoor") && Get(jobs[j], "title", "") == "Senior " + TitleCase(keyword)
      && Get(jobs[j], "location", "") == location
  {
    jobs := [];
    k := k0;
    for i := 0 to 2
      invariant |jobs| == i
      invariant forall j :: 0 <= j < |jobs| ==>
        HasSource(jobs[j], "Glassdoor") && Get(jobs[j], "title", "") == "Senior " + TitleCase(keyword)
        && Get(jobs[j], "location", "") == location
    {
      jobs := jobs + [GlassdoorSampleJob(keyword, location, rand, daysAgo, k)];
      k := k + 5;
    }
  }

  const NetflixDescriptionOpening: string :=
    "Join Netflix as a Senior Data Scientist "
    + "to help drive content strategy through "
    + "advanced analytics and machine "
    + "learning. Lead data science initiatives "
    + "and mentor"
  const NetflixDescriptionTail: string := " junior team members."
  const NetflixDescription: string := NetflixDescriptionOpening + NetflixDescriptionTail
  const NetflixRequirements: string :=
    "PhD or Masters in Data Science, 6+ "
    + "years experience, expertise in Python, "
    + "R, and ML frameworks, leadership "
    + "experience"
  const NetflixUrl: string :=
    "https://jobs.netflix.com/jobs/senior-data-scientist-content-strategy"
  const SpotifyDescription: string :=
    "Lead our data engineering team to build "
    + "scalable data pipelines and "
    + "infrastructure. Drive technical "
    + "decisions and architecture choices for "
    + "big data processing."
  const SpotifyRequirements: string :=
    "7+ years in data engineering, expertise "
    + "in Spark, Kafka, AWS/GCP, team "
    + "leadership experience"
  const SpotifyUrl: string := "https://www.lifeatspotify.com/jobs/lead-data-engineer"
  const UberDescription: string :=
    "Design and implement enterprise-wide "
    + "data architecture strategies. Lead "
    + "cross-functional teams to build data "
    + "platforms that scale to millions of "
    + "users."
  const UberRequirements: string :=
    "10+ years experience, expertise in "
    + "distributed systems, data modeling, "
    + "cloud platforms, strategic planning "
    + "skills"
  const UberUrl: string := "https://www.uber.com/careers/principal-data-architect"
  const AirbnbDescription: string :=
    "Lead the data analytics organization "
    + "driving insights across product, "
    + "marketing, and operations. Build and "
    + "manage a team of senior analysts and "
    + "data scientists."
  const AirbnbRequirements: string :=
    "8+ years in analytics, 5+ years "
    + "management experience, strategic "
    + "thinking, stakeholder management"
  const AirbnbUrl: string := "https://careers.airbnb.com/positions/head-of-data-analytics"
  const TeslaDescription: string :=
    "Develop and deploy ML models for "
    + "autonomous driving systems. Work with "
    + "cutting-edge AI technology to "
    + "revolutionize transportation."
  const TeslaRequirements: string :=
    "5+ years ML engineering, expertise in "
    + "TensorFlow/PyTorch, computer vision, "
    + "autonomous systems experience preferred"
  const TeslaUrl: string := "https://www.tesla.com/careers/senior-ml-engineer"
  const MetaDescription: string :=
    "Drive data science strategy across "
    + "multiple product areas. Influence "
    + "product decisions through advanced "
    + "analytics and experimentation."
  const MetaRequirements: string :=
    "8+ years data science experience, PhD "
    + "preferred, expertise in causal "
    + "inference, A/B testing, product "
    + "analytics"
  const MetaUrl: string := "https://www.metacareers.com/jobs/staff-data-scientist"

  /** A fixed sample role, listed as a company career page. */
  function FixedJob(title: string, company: string, location: string, description: string, requirements: string,
                    url: string, salary: string, posted: string): (job: Job)
    ensures HasSource(job, "Company Career Page")
  {
    map["title" := title, "company" := company, "location" := location, "description" := description,
        "requirements" := requirements, "url" := url, "salary" := salary, "posted_date" := posted,
        "source" := "Company Career Page"]
  }

  function NetflixSample(daysAgo: int -> string): Job {
    FixedJob("Senior Data Scientist", "Netflix", "Remote", NetflixDescription, NetflixRequirements,
             NetflixUrl, "$180k - $280k", daysAgo(5))
  }

  function SpotifySample(daysAgo: int -> string): Job {
    FixedJob("Lead Data Engineer", "Spotify", "Stockholm, Sweden", SpotifyDescription, SpotifyRequirements,
             SpotifyUrl, "\U{20AC}120k - \U{20AC}160k", daysAgo(8))
  }

  function UberSample(daysAgo: int -> string): Job {
    FixedJob("Principal Data Architect", "Uber", "San Francisco, CA", UberDescription, UberRequirements,
             UberUrl, "$220k - $320k", daysAgo(3))
  }

  function AirbnbSample(daysAgo: int -> string): Job {
    FixedJob("Head of Data Analytics", "Airbnb", "Remote", AirbnbDescription, AirbnbRequirements,
             AirbnbUrl, "$200k - $300k", daysAgo(12))
  }

  function TeslaSample(daysAgo: int -> string): Job {
    FixedJob("Senior Machine Learning Engineer", "Tesla", "Austin, TX", TeslaDescription, TeslaRequirements,
             TeslaUrl, "$160k - $240k", daysAgo(7))
  }

  function MetaSample(daysAgo: int -> string): Job {
    FixedJob("Staff Data Scientist", "Meta", "Menlo Park, CA", MetaDescription, MetaRequirements,
             MetaUrl, "$190k - $290k", daysAgo(15))
  }

  /** The six fixed senior roles appended to the generated samples. */
  function FixedSampleJobs(daysAgo: int -> string): (jobs: seq<Job>)
    ensures |jobs| == 6
  {
    [NetflixSample(daysAgo), SpotifySample(daysAgo), UberSample(daysAgo),
     AirbnbSample(daysAgo), TeslaSample(daysAgo), MetaSample(daysAgo)]
  }

  /** The fixed Netflix "Senior Data Scientist" sample asks its hire to
      "mentor junior team members", so the classifier rejects it. */
  lemma NetflixSampleRejected(daysAgo: int -> string)
    ensures !IsSeniorDataRole(NetflixSample(daysAgo))
  {
    var job := NetflixSample(daysAgo);
    JuniorInNetflixTail();
    LowerConcat(NetflixDescriptionOpening, NetflixDescriptionTail);
    ContainsInConcat(Lower(NetflixDescriptionOpening), Lower(NetflixDescriptionTail), "junior");
    assert LowerDescription(job) == Lower(NetflixDescription);
    assert JuniorIndicators[0] == "junior";
    JuniorRejected(job);
  }

  /** The closing words of the Netflix description hold "junior". */
  lemma JuniorInNetflixTail()
    ensures Contains(Lower(NetflixDescriptionTail), "junior")
  {
    var tail := NetflixDescriptionTail;
    assert Lower(tail) == tail by {
      assert forall i :: 0 <= i < |tail| ==> !IsUpperChar(tail[i]);
    }
    assert tail[1..7] == "junior" by {
      forall i | 0 <= i < 6
        ensures tail[1..7][i] == "junior"[i]
      {
        assert tail[1..7][i] == tail[i + 1];
      }
    }
    assert OccursAt(tail, "junior", 1);
  }

  /** `_generate_sample_jobs`: LinkedIn samples, two AngelList samples for
      'data analyst', two Glassdoor samples for 'business analyst' in
      'Remote', and the six fixed roles. */
  method GenerateSampleJobs(cfg: SearchSettings, rand: nat -> nat, daysAgo: int -> string, k0: nat)
    returns (jobs: seq<Job>, k: nat)
    ensures |jobs| == LinkedInSampleCount(cfg) + 10
  {
    var linkedin, angel, glassdoor;
    linkedin, k := GenerateLinkedInSampleJobs(cfg, rand, daysAgo, k0);
    angel, k := GenerateAngelListSampleJobs("data analyst", rand, daysAgo, k);
    glassdoor, k := GenerateGlassdoorSampleJobs("business analyst", "Remote", rand, daysAgo, k);
    jobs := linkedin + angel + glassdoor + FixedSampleJobs(daysAgo);
  }

  // ---------------------------------------------------------------------
  // Sources

  /** `_scrape_angellist`: for each of the first two keywords whose search
      page answers with status 200, two AngelList samples. */
  method ScrapeAngelList(cfg: SearchSettings, reachable: string -> bool, rand: nat -> nat, daysAgo: int -> string, k0: nat)
    returns (jobs: seq<Job>, k: nat)
    ensures |jobs| == 2 * Count(Prefix2(cfg.keywords.GetOr([])), reachable)
    ensures forall j :: 0 <= j < |jobs| ==> HasSource(jobs[j], "AngelList")
  {
    var keywords := Prefix2(cfg.keywords.GetOr([]));
    jobs := [];
    k := k0;
    for a := 0 to |keywords|
      invariant |jobs| == 2 * Count(keywords[..a], reachable)
      invariant forall j :: 0 <= j < |jobs| ==> HasSource(jobs[j], "AngelList")
    {
      assert keywords[..a + 1] == keywords[..a] + [keywords[a]];
      KeepAppend(keywords[..a], [keywords[a]], reachable);
      if reachable(keywords[a]) {
        var sample;
        sample, k := GenerateAngelListSampleJobs(keywords[a], rand, daysAgo, k);
        jobs := jobs + sample;
      }
    }
    assert keywords[..|keywords|] == keywords;
  }

  function Prefix2(xs: seq<string>): seq<string> {
    xs[..Min(2, |xs|)]
  }

  function GlassdoorCount(cfg: SearchSettings): nat {
    |Prefix2(cfg.keywords.GetOr([]))| * |Prefix2(cfg.locations.GetOr([]))| * 2
  }

  /** `_scrape_glassdoor`: simulated listings, two per keyword and location
      among the first two of each. */
  method ScrapeGlassdoor(cfg: SearchSettings, rand: nat -> nat, daysAgo: int -> string, k0: nat)
    returns (jobs: seq<Job>, k: nat)
    ensures |jobs| == GlassdoorCount(cfg)
    ensures forall j :: 0 <= j < |jobs| ==> HasSource(jobs[j], "Glassdoor")
  {
    var keywords := Prefix2(cfg.keywords.GetOr([]));
    var locations := Prefix2(cfg.locations.GetOr([]));
    var nl := |locations|;
    jobs := [];
    k := k0;
    for a := 0 to |keywords|
      invariant |jobs| == a * nl * 2
      invariant forall j :: 0 <= j < |jobs| ==> HasSource(jobs[j], "Glassdoor")
    {
      for b := 0 to nl
        invariant |jobs| == (a * nl + b) * 2
        invariant forall j :: 0 <= j < |jobs| ==> HasSource(jobs[j], "Glassdoor")
      {
        var sample;
        sample, k := GenerateGlassdoorSampleJobs(keywords[a], locations[b], rand, daysAgo, k);
        jobs := jobs + sample;
      }
    }
  }

  /** `_scrape_alternative_sources`: Indeed, then AngelList, then Glassdoor. */
  method ScrapeAlternativeSources(cfg: SearchSettings, indeed: seq<Job>, reachable: string -> bool,
                                  rand: nat -> nat, daysAgo: int -> string, k0: nat)
    returns (jobs: seq<Job>, k: nat)
    ensures |jobs| == |indeed| + 2 * Count(Prefix2(cfg.keywords.GetOr([])), reachable) + GlassdoorCount(cfg)
    ensures indeed <= jobs
  {
    var angel, glassdoor;
    angel, k := ScrapeAngelList(cfg, reachable, rand, daysAgo, k0);
    glassdoor, k := ScrapeGlassdoor(cfg, rand, daysAgo, k);
    jobs := indeed + angel + glassdoor;
  }

  /** `_scrape_linkedin_fallback`: the public search results, or the
      LinkedIn samples when it found nothing. */
  method ScrapeLinkedInFallback(cfg: SearchSettings, publicJobs: seq<Job>, rand: nat -> nat, daysAgo: int -> string, k0: nat)
    returns (jobs: seq<Job>, k: nat)
    ensures publicJobs != [] ==> jobs == publicJobs
    ensures publicJobs == [] ==> |jobs| == LinkedInSampleCount(cfg)
  {
    jobs := [];
    k := k0;
    if publicJobs != [] {
      jobs := jobs + publicJobs;
    }
    if jobs == [] {
      jobs, k := GenerateLinkedInSampleJobs(cfg, rand, daysAgo, k);
    }
  }

  function MaxJobsPerDay(cfg: SearchSettings): int {
    cfg.maxJobsPerDay.GetOr(10)
  }

  /** A filter keeps a list free of repeated keys. */
  lemma {:induction false} KeepUnique(jobs: seq<Job>, p: Job -> bool)
    requires UniqueKeys(jobs)
    ensures UniqueKeys(Keep(jobs, p))
    decreases |jobs|
  {
    if |jobs| > 0 {
      var rest := Keep(jobs[1..], p);
      KeepUnique(jobs[1..], p);
      forall j | 0 <= j < |rest|
        ensures JobKey(rest[j]) != JobKey(jobs[0])
      {
        KeepMember(jobs[1..], p, rest[j]);
        var m :| 0 <= m < |jobs[1..]| && jobs[1..][m] == rest[j];
        assert jobs[m + 1] == rest[j];
      }
    }
  }

  /** The number of jobs the alternative sources return: the Indeed jobs,
      two AngelList jobs per reachable keyword among the first two, and the
      Glassdoor listings. */
  function AlternativeCount(cfg: SearchSettings, indeed: seq<Job>, reachable: string -> bool): nat {
    |indeed| + 2 * Count(Prefix2(cfg.keywords.GetOr([])), reachable) + GlassdoorCount(cfg)
  }

  /** What the source chain of `scrape_jobs` produces, stage by stage:
      `alternative` the alternative sources (Indeed first), `linkedin` the
      LinkedIn fallback when it ran, `samples` the sample jobs when they
      replaced the empty list, and `all` the collected list. */
  ghost predicate Collected(cfg: SearchSettings, indeed: seq<Job>, reachable: string -> bool, linkedinPublic: seq<Job>,
                            all: seq<Job>, alternative: seq<Job>, linkedin: Option<seq<Job>>, samples: Option<seq<Job>>)
  {
    && indeed <= alternative
    && |alternative| == AlternativeCount(cfg, indeed, reachable)
    && (linkedin.Some? <==> AlternativeCount(cfg, indeed, reachable) < MaxJobsPerDay(cfg))
    && (linkedin.Some? && linkedinPublic != [] ==> linkedin.value == linkedinPublic)
    && (linkedin.Some? && linkedinPublic == [] ==> |linkedin.value| == LinkedInSampleCount(cfg))
    && (samples.Some? <==> alternative + linkedin.GetOr([]) == [])
    && (samples.Some? ==> |samples.value| == LinkedInSampleCount(cfg) + 10)
    && all == (if samples.Some? then samples.value else alternative + linkedin.GetOr([]))
  }

  /** Whether the samples replace the list depends on the inputs alone: no
      alternative job, and either no fallback or a fallback that found
      nothing and made no LinkedIn samples. The collected list is never
      empty. */
  lemma CollectedSamplesIff(cfg: SearchSettings, indeed: seq<Job>, reachable: string -> bool, linkedinPublic: seq<Job>,
                            all: seq<Job>, alternative: seq<Job>, linkedin: Option<seq<Job>>, samples: Option<seq<Job>>)
    requires Collected(cfg, indeed, reachable, linkedinPublic, all, alternative, linkedin, samples)
    ensures samples.Some? <==>
              AlternativeCount(cfg, indeed, reachable) == 0
              && (0 < MaxJobsPerDay(cfg) ==> linkedinPublic == [] && LinkedInSampleCount(cfg) == 0)
    ensures all != []
  {
    if samples.None? {
      assert alternative + linkedin.GetOr([]) != [];
    }
  }

  /** The source chain of `scrape_jobs`: alternative sources first; the
      LinkedIn fallback only while fewer than `max_jobs_per_day` jobs were
      found; the sample jobs in place of the list only when it is empty.
      The ghost results name the lists each stage produced. */
  method CollectJobs(cfg: SearchSettings, indeed: seq<Job>, reachable: string -> bool, linkedinPublic: seq<Job>,
                     rand: nat -> nat, daysAgo: int -> string)
    returns (all: seq<Job>, ghost alternative: seq<Job>, ghost linkedin: Option<seq<Job>>,
             ghost samples: Option<seq<Job>>)
    ensures Collected(cfg, indeed, reachable, linkedinPublic, all, alternative, linkedin, samples)
    ensures all != []
    ensures |all| == if samples.Some? then LinkedInSampleCount(cfg) + 10
                     else |alternative| + |linkedin.GetOr([])|
  {
    all := [];
    var k: nat := 0;
    var alt;
    alt, k := ScrapeAlternativeSources(cfg, indeed, reachable, rand, daysAgo, k);
    alternative := alt;
    all := all + alt;
    linkedin := None;
    if |all| < MaxJobsPerDay(cfg) {
      var li;
      li, k := ScrapeLinkedInFallback(cfg, linkedinPublic, rand, daysAgo, k);
      linkedin := Some(li);
      all := all + li;
    }
    samples := None;
    if all == [] {
      var sample;
      sample, k := GenerateSampleJobs(cfg, rand, daysAgo, k);
      samples := Some(sample);
      all := sample;
    }
  }

  /** `scrape_jobs`: the collected jobs, de-duplicated, then filtered by the
      classifier, order kept. The ghost results are the stages of the
      source chain, as `CollectJobs` states them. */
  method ScrapeJobs(cfg: SearchSettings, indeed: seq<Job>, reachable: string -> bool, linkedinPublic: seq<Job>,
                    rand: nat -> nat, daysAgo: int -> string)
    returns (filtered: seq<Job>, ghost collected: seq<Job>, ghost alternative: seq<Job>,
             ghost linkedin: Option<seq<Job>>, ghost samples: Option<seq<Job>>)
    ensures Collected(cfg, indeed, reachable, linkedinPublic, collected, alternative, linkedin, samples)
    ensures collected != []
    ensures filtered == Keep(Dedup(collected), IsSeniorDataRole)
    ensures UniqueKeys(filtered)
  {
    var all;
    all, alternative, linkedin, samples := CollectJobs(cfg, indeed, reachable, linkedinPublic, rand, daysAgo);
    collected := all;
    var unique := RemoveDuplicates(all);
    filtered := FilterSeniorDataRoles(unique);
    KeepUnique(unique, IsSeniorDataRole);
  }
}
