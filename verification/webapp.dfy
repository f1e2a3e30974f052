/** The web front end's job-search run and review actions (`web/app.py`),
    without the Flask request and flash plumbing. A run saves every scraped
    job and analyses each saved one until a quota error has been seen; the
    review page shows the listing 100 rows at a time; review actions
    dispatch to the store. */
module WebApp {
  import opened Wrappers
  import opened Text
  import opened Lists
  import opened Records
  import opened Store

  // ---------------------------------------------------------------------
  // Quota errors

  /** The words that mark an analysis error as a quota error. */
  const QuotaKeywords: seq<string> := ["quota", "rate limit", "exceeded", "too many requests", "429"]

  /** The words the handler around the whole run looks for. */
  const OuterQuotaKeywords: seq<string> := ["quota", "rate limit", "exceeded", "too many requests"]

  predicate IsQuotaError(message: string) {
    ContainsAny(Lower(message), QuotaKeywords)
  }

  predicate IsOuterQuotaError(message: string) {
    ContainsAny(Lower(message), OuterQuotaKeywords)
  }

  /** The outer handler's list is the loop's list without '429', so every
      message it takes for a quota error the loop does too. */
  lemma OuterQuotaImpliesQuota(message: string)
    ensures IsOuterQuotaError(message) ==> IsQuotaError(message)
  {
    if IsOuterQuotaError(message) {
      var k :| 0 <= k < |OuterQuotaKeywords| && Contains(Lower(message), OuterQuotaKeywords[k]);
      assert QuotaKeywords[k] == OuterQuotaKeywords[k];
    }
  }

  /** A bare status code 429 is a quota error inside the loop but not to the
      outer handler. */
  lemma Status429OnlyInLoop()
    ensures IsQuotaError("429") && !IsOuterQuotaError("429")
  {
    var s := "429";
    assert Lower(s) == s;
    assert OccursAt(s, QuotaKeywords[4], 0);
    assert Contains(Lower(s), QuotaKeywords[4]);
    NotContainsByChar(s, "quota", 0);
    NotContainsByChar(s, "rate limit", 0);
    NotContainsByChar(s, "exceeded", 0);
    NotContainsByChar(s, "too many requests", 0);
  }

  // ---------------------------------------------------------------------
  // The run loop as a fold

  /** What analysing one job gave: a value (an analysis, or None) or an
      exception with its message. */
  datatype AnalysisOutcome = Returned(analysis: Option<Analysis>) | Raised(message: string)

  /** `saved_jobs`, `new_matches`, `gemini_error_count` and
      `gemini_quota_exceeded` */
  datatype Counters = Counters(saved: nat, newMatches: nat, errors: nat, quotaExceeded: bool)

  /** `analysis and analysis.get('compatibility_score', 0) > 0` */
  predicate IsNewMatch(o: AnalysisOutcome) {
    o.Returned? && o.analysis.Some? && ScoreOr0(o.analysis.value) > 0
  }

  predicate IsError(o: AnalysisOutcome) {
    o.Raised?
  }

  predicate IsQuotaRaise(o: AnalysisOutcome) {
    o.Raised? && IsQuotaError(o.message)
  }

  predicate AnyOutcome(o: AnalysisOutcome) {
    true
  }

  /** One pass of the loop: `saved` says whether the posting got an id, `o`
      is what the analysis would give if it were attempted. */
  function Step(c: Counters, saved: bool, o: AnalysisOutcome): Counters {
    if !saved then c
    else if c.quotaExceeded then c.(saved := c.saved + 1)
    else
      match o
      case Returned(a) =>
        c.(saved := c.saved + 1, newMatches := c.newMatches + if IsNewMatch(o) then 1 else 0)
      case Raised(m) =>
        c.(saved := c.saved + 1, errors := c.errors + 1, quotaExceeded := IsQuotaError(m))
  }

  /** The counters after the loop has gone over the jobs whose save results
      are `savedFlags` and whose analysis outcomes are `outcomes`. */
  function RunCounters(savedFlags: seq<bool>, outcomes: seq<AnalysisOutcome>): Counters
    requires |savedFlags| == |outcomes|
    decreases |savedFlags|
  {
    if |savedFlags| == 0 then Counters(0, 0, 0, false)
    else
      var n := |savedFlags| - 1;
      Step(RunCounters(savedFlags[..n], outcomes[..n]), savedFlags[n], outcomes[n])
  }

  /** The number of saved jobs whose outcome satisfies `p`. */
  function Hits(savedFlags: seq<bool>, outcomes: seq<AnalysisOutcome>, p: AnalysisOutcome -> bool): nat
    requires |savedFlags| == |outcomes|
    decreases |savedFlags|
  {
    if |savedFlags| == 0 then 0
    else
      var n := |savedFlags| - 1;
      Hits(savedFlags[..n], outcomes[..n], p) + if savedFlags[n] && p(outcomes[n]) then 1 else 0
  }

  lemma {:induction false} HitsNone(savedFlags: seq<bool>, outcomes: seq<AnalysisOutcome>, p: AnalysisOutcome -> bool)
    requires |savedFlags| == |outcomes|
    requires forall i :: 0 <= i < |outcomes| ==> !p(outcomes[i])
    ensures Hits(savedFlags, outcomes, p) == 0
    decreases |savedFlags|
  {
    if |savedFlags| > 0 {
      var n := |savedFlags| - 1;
      assert forall i :: 0 <= i < n ==> outcomes[..n][i] == outcomes[i];
      HitsNone(savedFlags[..n], outcomes[..n], p);
    }
  }

  /** `saved_jobs` counts the saves that returned an id; every saved job
      adds at most one new match or one error. */
  lemma {:induction false} RunCountersBounds(savedFlags: seq<bool>, outcomes: seq<AnalysisOutcome>)
    requires |savedFlags| == |outcomes|
    ensures var c := RunCounters(savedFlags, outcomes);
            c.saved == Hits(savedFlags, outcomes, AnyOutcome)
            && c.newMatches + c.errors <= c.saved <= |savedFlags|
    decreases |savedFlags|
  {
    if |savedFlags| > 0 {
      var n := |savedFlags| - 1;
      RunCountersBounds(savedFlags[..n], outcomes[..n]);
    }
  }

  /** The quota flag is set exactly when some saved job's analysis raised a
      quota error: the first such error sets it and nothing clears it. */
  lemma {:induction false} QuotaFlagIff(savedFlags: seq<bool>, outcomes: seq<AnalysisOutcome>)
    requires |savedFlags| == |outcomes|
    ensures RunCounters(savedFlags, outcomes).quotaExceeded <==> Hits(savedFlags, outcomes, IsQuotaRaise) > 0
    decreases |savedFlags|
  {
    if |savedFlags| > 0 {
      var n := |savedFlags| - 1;
      QuotaFlagIff(savedFlags[..n], outcomes[..n]);
    }
  }

  /** Until the flag is set every saved job is analysed: the counters are
      the number of saved jobs with a new match and with an error. */
  lemma {:induction false} CountsWithoutQuota(savedFlags: seq<bool>, outcomes: seq<AnalysisOutcome>)
    requires |savedFlags| == |outcomes|
    ensures var c := RunCounters(savedFlags, outcomes);
            !c.quotaExceeded ==>
              c.newMatches == Hits(savedFlags, outcomes, IsNewMatch)
              && c.errors == Hits(savedFlags, outcomes, IsError)
    decreases |savedFlags|
  {
    if |savedFlags| > 0 {
      var n := |savedFlags| - 1;
      CountsWithoutQuota(savedFlags[..n], outcomes[..n]);
    }
  }

  /** Once the flag is set after the first k jobs, no later job is analysed:
      the match and error counts stay as they were and the flag stays set,
      while later postings are still counted as saved. */
  lemma {:induction false} QuotaShortCircuit(savedFlags: seq<bool>, outcomes: seq<AnalysisOutcome>, k: nat)
    requires |savedFlags| == |outcomes|
    requires k <= |savedFlags|
    requires RunCounters(savedFlags[..k], outcomes[..k]).quotaExceeded
    ensures var c := RunCounters(savedFlags, outcomes);
            var ck := RunCounters(savedFlags[..k], outcomes[..k]);
            c.quotaExceeded && c.newMatches == ck.newMatches && c.errors == ck.errors
    decreases |savedFlags|
  {
    if |savedFlags| == k {
      assert savedFlags[..k] == savedFlags && outcomes[..k] == outcomes;
    } else {
      var n := |savedFlags| - 1;
      assert savedFlags[..n][..k] == savedFlags[..k];
      assert outcomes[..n][..k] == outcomes[..k];
      QuotaShortCircuit(savedFlags[..n], outcomes[..n], k);
    }
  }

  /** The analysis step of the scorer catches every exception and returns
      None, so with its outcomes the quota flag is never set and no error is
      counted. */
  lemma MatcherNeverSetsQuota(savedFlags: seq<bool>, outcomes: seq<AnalysisOutcome>)
    requires |savedFlags| == |outcomes|
    requires forall i :: 0 <= i < |outcomes| ==> outcomes[i].Returned?
    ensures !RunCounters(savedFlags, outcomes).quotaExceeded
    ensures RunCounters(savedFlags, outcomes).errors == 0
  {
    QuotaFlagIff(savedFlags, outcomes);
    HitsNone(savedFlags, outcomes, IsQuotaRaise);
    CountsWithoutQuota(savedFlags, outcomes);
    HitsNone(savedFlags, outcomes, IsError);
  }

  // ---------------------------------------------------------------------
  // Which saves return an id

  /** The `job_hash` values stored. */
  function Hashes(postings: map<int, Posting>): set<string> {
    set k | k in postings :: postings[k].jobHash
  }

  /** A job the INSERT accepts: title and company are NOT NULL. */
  predicate Savable(job: Job) {
    "title" in job && "company" in job
  }

  function SavableKeys(jobs: seq<Job>): set<string> {
    set j | j in jobs && Savable(j) :: JobKey(j)
  }

  /** Whether each save returns an id, given the hashes stored before the
      run: a stored hash returns its row's id, a savable job is inserted
      and its hash is stored from then on. */
  function SavedFlags(jobs: seq<Job>, known: set<string>): (r: seq<bool>)
    ensures |r| == |jobs|
    decreases |jobs|
  {
    if |jobs| == 0 then []
    else
      [JobKey(jobs[0]) in known || Savable(jobs[0])]
      + SavedFlags(jobs[1..], known + if Savable(jobs[0]) then {JobKey(jobs[0])} else {})
  }

  /** Some job before position i is savable and has key `key`. */
  predicate SavedEarlier(jobs: seq<Job>, i: nat, key: string)
    requires i <= |jobs|
  {
    exists j :: 0 <= j < i && Savable(jobs[j]) && JobKey(jobs[j]) == key
  }

  lemma SavedEarlierShift(jobs: seq<Job>, i: nat, key: string)
    requires 0 < i <= |jobs|
    ensures SavedEarlier(jobs, i, key)
        <==> (Savable(jobs[0]) && JobKey(jobs[0]) == key) || SavedEarlier(jobs[1..], i - 1, key)
  {
    if SavedEarlier(jobs, i, key) {
      var j :| 0 <= j < i && Savable(jobs[j]) && JobKey(jobs[j]) == key;
      if j > 0 {
        assert jobs[1..][j - 1] == jobs[j];
      }
    }
    if SavedEarlier(jobs[1..], i - 1, key) {
      var j :| 0 <= j < i - 1 && Savable(jobs[1..][j]) && JobKey(jobs[1..][j]) == key;
      assert jobs[1..][j] == jobs[j + 1];
    }
  }

  /** A save returns an id exactly when the job is savable, or its key was
      stored before the run, or an earlier savable job of the run has it. */
  lemma {:induction false} SavedFlagsIff(jobs: seq<Job>, known: set<string>, i: nat)
    requires i < |jobs|
    ensures SavedFlags(jobs, known)[i]
        <==> Savable(jobs[i]) || JobKey(jobs[i]) in known || SavedEarlier(jobs, i, JobKey(jobs[i]))
    decreases i
  {
    if i > 0 {
      var known' := known + if Savable(jobs[0]) then {JobKey(jobs[0])} else {};
      SavedFlagsIff(jobs[1..], known', i - 1);
      assert jobs[1..][i - 1] == jobs[i];
      SavedEarlierShift(jobs, i, JobKey(jobs[i]));
    }
  }

  lemma FindHashIsMembership(postings: map<int, Posting>, h: string, n: nat)
    requires forall k :: k in postings ==> 0 <= k < n
    ensures FindHash(postings, h, n).Some? <==> h in Hashes(postings)
  {
    if h in Hashes(postings) {
      var k :| k in postings && postings[k].jobHash == h;
    }
  }

  lemma HashesInsert(postings: map<int, Posting>, id: int, p: Posting)
    requires id !in postings
    ensures Hashes(postings[id := p]) == Hashes(postings) + {p.jobHash}
  {
    var m := postings[id := p];
    forall h | h in Hashes(m) ensures h in Hashes(postings) + {p.jobHash} {
      var k :| k in m && m[k].jobHash == h;
      if k != id {
        assert k in postings && postings[k].jobHash == h;
      }
    }
    assert id in m && m[id].jobHash == p.jobHash;
    forall h | h in Hashes(postings) ensures h in Hashes(m) {
      var k :| k in postings && postings[k].jobHash == h;
      assert k in m && m[k] == postings[k];
    }
  }

  lemma SavableKeysSnoc(jobs: seq<Job>, i: nat)
    requires i < |jobs|
    ensures SavableKeys(jobs[..i + 1])
         == SavableKeys(jobs[..i]) + if Savable(jobs[i]) then {JobKey(jobs[i])} else {}
  {
    assert jobs[..i + 1] == jobs[..i] + [jobs[i]];
  }

  lemma SavedFlagsUnfold(jobs: seq<Job>, i: nat, known: set<string>)
    requires i < |jobs|
    ensures SavedFlags(jobs[i..], known)
         == [JobKey(jobs[i]) in known || Savable(jobs[i])]
            + SavedFlags(jobs[i + 1..], known + if Savable(jobs[i]) then {JobKey(jobs[i])} else {})
  {
    assert jobs[i..][1..] == jobs[i + 1..];
  }

  /** One job further through the run: its flag joins the known ones and
      the stored hashes gain its key when it is savable. */
  lemma FlagsStep(jobs: seq<Job>, i: nat, flags: seq<bool>, saved: bool, known0: set<string>,
                  before: set<string>, after: set<string>)
    requires i < |jobs|
    requires flags + SavedFlags(jobs[i..], before) == SavedFlags(jobs, known0)
    requires before == known0 + SavableKeys(jobs[..i])
    requires saved <==> JobKey(jobs[i]) in before || Savable(jobs[i])
    requires after == before + if Savable(jobs[i]) then {JobKey(jobs[i])} else {}
    ensures (flags + [saved]) + SavedFlags(jobs[i + 1..], after) == SavedFlags(jobs, known0)
    ensures after == known0 + SavableKeys(jobs[..i + 1])
  {
    FlagsStepFlags(jobs, i, flags, saved, before, after, SavedFlags(jobs, known0));
    SavableKeysSnoc(jobs, i);
  }

  lemma FlagsStepFlags(jobs: seq<Job>, i: nat, flags: seq<bool>, saved: bool, before: set<string>,
                       after: set<string>, all: seq<bool>)
    requires i < |jobs|
    requires flags + SavedFlags(jobs[i..], before) == all
    requires saved <==> JobKey(jobs[i]) in before || Savable(jobs[i])
    requires after == before + if Savable(jobs[i]) then {JobKey(jobs[i])} else {}
    ensures (flags + [saved]) + SavedFlags(jobs[i + 1..], after) == all
  {
    SavedFlagsUnfold(jobs, i, before);
    assert (flags + [saved]) + SavedFlags(jobs[i + 1..], after) == flags + ([saved] + SavedFlags(jobs[i + 1..], after));
  }

  lemma RunCountersSnoc(flags: seq<bool>, f: bool, outcomes: seq<AnalysisOutcome>, i: nat)
    requires |flags| == i < |outcomes|
    ensures RunCounters(flags + [f], outcomes[..i + 1]) == Step(RunCounters(flags, outcomes[..i]), f, outcomes[i])
  {
    assert (flags + [f])[..i] == flags;
    assert outcomes[..i + 1][..i] == outcomes[..i];
  }

  // ---------------------------------------------------------------------
  // What a run writes

  /** `m` with `rows` stored under consecutive ids from `start`, as an
      AUTOINCREMENT table gains them from inserts made in order. */
  function Inserted<T>(m: map<int, T>, start: int, rows: seq<T>): map<int, T>
    decreases |rows|
  {
    if rows == [] then m
    else Inserted(m, start, rows[..|rows| - 1])[start + |rows| - 1 := rows[|rows| - 1]]
  }

  /** The inserted table holds the old rows and `rows[i]` under id
      `start + i`, and nothing else; rows whose ids the new ones do not
      reach are unchanged. */
  lemma {:induction false} InsertedContents<T>(m: map<int, T>, start: int, rows: seq<T>)
    ensures var r := Inserted(m, start, rows);
            (forall k :: k in r <==> k in m || start <= k < start + |rows|)
            && (forall i :: 0 <= i < |rows| ==> r[start + i] == rows[i])
            && (forall k :: k in m && !(start <= k < start + |rows|) ==> r[k] == m[k])
    decreases |rows|
  {
    if rows != [] {
      InsertedContents(m, start, rows[..|rows| - 1]);
    }
  }

  lemma InsertedSnoc<T>(m: map<int, T>, start: int, rows: seq<T>, x: T)
    ensures Inserted(m, start, rows + [x]) == Inserted(m, start, rows)[start + |rows| := x]
  {
    assert (rows + [x])[..|rows|] == rows;
  }

  /** The postings a run inserts, in order: one for each savable job whose
      hash is neither among the `known` ones nor inserted earlier in the run. */
  function NewPostings(jobs: seq<Job>, known: set<string>, now: int): (r: seq<Posting>)
    ensures |r| <= |jobs|
    decreases |jobs|
  {
    if jobs == [] then []
    else
      var n := |jobs| - 1;
      NewPostings(jobs[..n], known, now)
      + if Savable(jobs[n]) && JobKey(jobs[n]) !in known + SavableKeys(jobs[..n])
        then [NewPosting(jobs[n], now)] else []
  }

  lemma NewPostingsSnoc(jobs: seq<Job>, i: nat, known: set<string>, now: int)
    requires i < |jobs|
    ensures NewPostings(jobs[..i + 1], known, now)
         == NewPostings(jobs[..i], known, now)
            + if Savable(jobs[i]) && JobKey(jobs[i]) !in known + SavableKeys(jobs[..i])
              then [NewPosting(jobs[i], now)] else []
  {
    assert jobs[..i + 1][..i] == jobs[..i];
  }

  /** The hashes of some postings. */
  function PostingHashes(r: seq<Posting>): set<string> {
    set p | p in r :: p.jobHash
  }

  /** No two of the postings share a hash. */
  predicate DistinctHashes(r: seq<Posting>) {
    forall i, j :: 0 <= i < j < |r| ==> r[i].jobHash != r[j].jobHash
  }

  lemma PostingHashesSnoc(r: seq<Posting>, x: Posting)
    ensures PostingHashes(r + [x]) == PostingHashes(r) + {x.jobHash}
  {
    assert forall p :: p in r + [x] <==> p in r || p == x;
  }

  lemma DistinctHashesSnoc(r: seq<Posting>, x: Posting)
    requires DistinctHashes(r) && x.jobHash !in PostingHashes(r)
    ensures DistinctHashes(r + [x])
  {
    var r' := r + [x];
    forall i, j | 0 <= i < j < |r'| ensures r'[i].jobHash != r'[j].jobHash {
      assert r'[i] == r[i] by { assert i < |r|; }
      if j == |r| {
        assert r[i] in r;
      }
    }
  }

  /** The hashes a run inserts are exactly the savable keys that were not
      stored. */
  lemma {:induction false} NewPostingsKeys(jobs: seq<Job>, known: set<string>, now: int)
    ensures PostingHashes(NewPostings(jobs, known, now)) == SavableKeys(jobs) - known
    decreases |jobs|
  {
    if jobs != [] {
      var n := |jobs| - 1;
      var prev := NewPostings(jobs[..n], known, now);
      NewPostingsKeys(jobs[..n], known, now);
      NewPostingsSnoc(jobs, n, known, now);
      SavableKeysSnoc(jobs, n);
      assert jobs[..n + 1] == jobs;
      if Savable(jobs[n]) && JobKey(jobs[n]) !in known + SavableKeys(jobs[..n]) {
        PostingHashesSnoc(prev, NewPosting(jobs[n], now));
      } else {
        assert prev + [] == prev;
      }
    }
  }

  /** A run inserts each hash at most once. */
  lemma {:induction false} NewPostingsDistinct(jobs: seq<Job>, known: set<string>, now: int)
    ensures DistinctHashes(NewPostings(jobs, known, now))
    decreases |jobs|
  {
    if jobs != [] {
      var n := |jobs| - 1;
      var prev := NewPostings(jobs[..n], known, now);
      NewPostingsDistinct(jobs[..n], known, now);
      NewPostingsKeys(jobs[..n], known, now);
      NewPostingsSnoc(jobs, n, known, now);
      assert jobs[..n + 1] == jobs;
      if Savable(jobs[n]) && JobKey(jobs[n]) !in known + SavableKeys(jobs[..n]) {
        DistinctHashesSnoc(prev, NewPosting(jobs[n], now));
      } else {
        assert prev + [] == prev;
      }
    }
  }

  /** The analysis a pass stores: the one returned for a saved job with a
      positive score while the quota flag is clear. */
  function Matched(c: Counters, saved: bool, o: AnalysisOutcome): (r: Option<Analysis>)
    ensures Step(c, saved, o).newMatches == c.newMatches + if r.Some? then 1 else 0
    ensures r.Some? ==> saved && !c.quotaExceeded && o == Returned(r) && ScoreOr0(r.value) > 0
  {
    if saved && !c.quotaExceeded && IsNewMatch(o) then o.analysis else None
  }

  /** A job of a run that gets an analysis row, with that analysis. */
  datatype Match = Match(job: Job, analysis: Analysis)

  /** The jobs that get an analysis row when the loop goes on from counters
      `c` over jobs whose save results are `flags`, with their analyses, in
      order. */
  function MatchesFrom(c: Counters, flags: seq<bool>, jobs: seq<Job>, outcomes: seq<AnalysisOutcome>): (r: seq<Match>)
    requires |flags| == |jobs| == |outcomes|
    ensures forall i :: 0 <= i < |r| ==> ScoreOr0(r[i].analysis) > 0 && r[i].job in jobs
    decreases |jobs|
  {
    if jobs == [] then []
    else
      var m := Matched(c, flags[0], outcomes[0]);
      var rest := MatchesFrom(Step(c, flags[0], outcomes[0]), flags[1..], jobs[1..], outcomes[1..]);
      assert forall i :: 0 <= i < |rest| ==> rest[i].job in jobs by {
        forall i | 0 <= i < |rest| ensures rest[i].job in jobs {
          assert rest[i].job in jobs[1..];
        }
      }
      (if m.Some? then [Match(jobs[0], m.value)] else []) + rest
  }

  /** The jobs of a run that get an analysis row, with their analyses. */
  function Matches(flags: seq<bool>, jobs: seq<Job>, outcomes: seq<AnalysisOutcome>): seq<Match>
    requires |flags| == |jobs| == |outcomes|
  {
    MatchesFrom(Counters(0, 0, 0, false), flags, jobs, outcomes)
  }

  lemma MatchesFromUnfold(c: Counters, flags: seq<bool>, jobs: seq<Job>, outcomes: seq<AnalysisOutcome>, i: nat)
    requires |flags| == |jobs| == |outcomes|
    requires i < |jobs|
    ensures var m := Matched(c, flags[i], outcomes[i]);
            MatchesFrom(c, flags[i..], jobs[i..], outcomes[i..])
            == (if m.Some? then [Match(jobs[i], m.value)] else [])
               + MatchesFrom(Step(c, flags[i], outcomes[i]), flags[i + 1..], jobs[i + 1..], outcomes[i + 1..])
  {
    assert flags[i..][1..] == flags[i + 1..];
    assert jobs[i..][1..] == jobs[i + 1..];
    assert outcomes[i..][1..] == outcomes[i + 1..];
  }

  /** The id of the stored posting with hash h below n (0, no id, when there
      is none). */
  function PostingIdOf(postings: map<int, Posting>, h: string, n: nat): int {
    match FindHash(postings, h, n)
    case Some(k) => k
    case None => 0
  }

  /** The `job_analysis` rows for `matches`, each pointing at the stored
      posting with the job's hash. */
  function MatchRows(postings: map<int, Posting>, n: nat, matches: seq<Match>, now: int): seq<AnalysisRow> {
    seq(|matches|, i requires 0 <= i < |matches| =>
      AnalysisRow(PostingIdOf(postings, JobKey(matches[i].job), n), matches[i].analysis, now))
  }

  /** Row i belongs to match i: it points at a stored posting with the
      matched job's hash and holds its analysis and the run's time. */
  ghost predicate RowsAgree(rows: seq<AnalysisRow>, postings: map<int, Posting>,
                            matches: seq<Match>, now: int) {
    |rows| == |matches|
    && forall i :: 0 <= i < |rows| ==>
         rows[i].jobId in postings && postings[rows[i].jobId].jobHash == JobKey(matches[i].job)
         && rows[i].analysis == matches[i].analysis && rows[i].analyzedAt == now
  }

  lemma FindHashUnique(postings: map<int, Posting>, h: string, n: nat, id: int)
    requires PostingsValid(postings, n)
    requires id in postings && postings[id].jobHash == h
    ensures FindHash(postings, h, n) == Some(id)
  {
  }

  /** With the hash UNIQUE, rows that agree with the matches are the rows
      `MatchRows` gives. */
  lemma RowsAgreeMatchRows(rows: seq<AnalysisRow>, postings: map<int, Posting>, n: nat,
                           matches: seq<Match>, now: int)
    requires PostingsValid(postings, n)
    requires RowsAgree(rows, postings, matches, now)
    ensures rows == MatchRows(postings, n, matches, now)
  {
    forall i | 0 <= i < |rows| ensures rows[i] == MatchRows(postings, n, matches, now)[i] {
      FindHashUnique(postings, JobKey(matches[i].job), n, rows[i].jobId);
    }
  }

  lemma RowsAgreeSnoc(rows: seq<AnalysisRow>, postings: map<int, Posting>, matches: seq<Match>,
                      now: int, row: AnalysisRow, job: Job)
    requires RowsAgree(rows, postings, matches, now)
    requires row.jobId in postings && postings[row.jobId].jobHash == JobKey(job) && row.analyzedAt == now
    ensures RowsAgree(rows + [row], postings, matches + [Match(job, row.analysis)], now)
  {
    var rows', matches' := rows + [row], matches + [Match(job, row.analysis)];
    forall i | 0 <= i < |rows'|
      ensures rows'[i].jobId in postings && postings[rows'[i].jobId].jobHash == JobKey(matches'[i].job)
              && rows'[i].analysis == matches'[i].analysis && rows'[i].analyzedAt == now
    {
      if i < |rows| {
        assert rows'[i] == rows[i] && matches'[i] == matches[i];
      }
    }
  }

  lemma RowsAgreeGrow(rows: seq<AnalysisRow>, postings: map<int, Posting>, postings': map<int, Posting>,
                      matches: seq<Match>, now: int)
    requires RowsAgree(rows, postings, matches, now)
    requires forall k :: k in postings ==> k in postings' && postings'[k] == postings[k]
    ensures RowsAgree(rows, postings', matches, now)
  {
  }

  /** One pass as seen by the postings table: the table is still the
      run's inserts so far. */
  lemma PostingsStep(jobs: seq<Job>, i: nat, known0: set<string>, now: int,
                     p0: map<int, Posting>, n0: int,
                     postings: map<int, Posting>, next: int, postings': map<int, Posting>, next': int)
    requires i < |jobs|
    requires postings == Inserted(p0, n0, NewPostings(jobs[..i], known0, now))
    requires next == n0 + |NewPostings(jobs[..i], known0, now)|
    requires Savable(jobs[i]) && JobKey(jobs[i]) !in known0 + SavableKeys(jobs[..i]) ==>
               postings' == postings[next := NewPosting(jobs[i], now)] && next' == next + 1
    requires !(Savable(jobs[i]) && JobKey(jobs[i]) !in known0 + SavableKeys(jobs[..i])) ==>
               postings' == postings && next' == next
    ensures postings' == Inserted(p0, n0, NewPostings(jobs[..i + 1], known0, now))
    ensures next' == n0 + |NewPostings(jobs[..i + 1], known0, now)|
  {
    NewPostingsSnoc(jobs, i, known0, now);
    var prev := NewPostings(jobs[..i], known0, now);
    if Savable(jobs[i]) && JobKey(jobs[i]) !in known0 + SavableKeys(jobs[..i]) {
      InsertedSnoc(p0, n0, prev, NewPosting(jobs[i], now));
    } else {
      assert NewPostings(jobs[..i + 1], known0, now) == prev + [] == prev;
    }
  }

  lemma Regroup<T>(done: seq<T>, here: seq<T>, head: seq<T>, rest: seq<T>, whole: seq<T>)
    requires done + here == whole && here == head + rest
    ensures (done + head) + rest == whole
  {
  }

  /** One pass as seen by the run's matches: the job's match, if any, joins
      those found so far, and the rest of the run goes on from the stepped
      counters. */
  lemma DoneStep(flags: seq<bool>, jobs: seq<Job>, outcomes: seq<AnalysisOutcome>, i: nat,
                 done: seq<Match>, c: Counters)
    requires i < |flags| == |jobs| == |outcomes|
    requires done + MatchesFrom(c, flags[i..], jobs[i..], outcomes[i..]) == Matches(flags, jobs, outcomes)
    requires |done| == c.newMatches
    ensures var m := Matched(c, flags[i], outcomes[i]);
            var done' := done + if m.Some? then [Match(jobs[i], m.value)] else [];
            var c' := Step(c, flags[i], outcomes[i]);
            done' + MatchesFrom(c', flags[i + 1..], jobs[i + 1..], outcomes[i + 1..]) == Matches(flags, jobs, outcomes)
            && |done'| == c'.newMatches
  {
    MatchesFromUnfold(c, flags, jobs, outcomes, i);
    var m := Matched(c, flags[i], outcomes[i]);
    Regroup(done, MatchesFrom(c, flags[i..], jobs[i..], outcomes[i..]),
            if m.Some? then [Match(jobs[i], m.value)] else [],
            MatchesFrom(Step(c, flags[i], outcomes[i]), flags[i + 1..], jobs[i + 1..], outcomes[i + 1..]),
            Matches(flags, jobs, outcomes));
  }

  /** One pass as seen by the analysis table: it gains the row of this
      job's match, if any, the rows still agree with the matches found so
      far, and those matches are still a prefix of the run's matches. */
  lemma AnalysesStep(flags: seq<bool>, jobs: seq<Job>, outcomes: seq<AnalysisOutcome>, i: nat, now: int,
                     a0: map<int, AnalysisRow>, na0: int, rows: seq<AnalysisRow>, done: seq<Match>, c: Counters,
                     analyses: map<int, AnalysisRow>, nextA: int, analyses': map<int, AnalysisRow>, nextA': int,
                     postings: map<int, Posting>, postings': map<int, Posting>, id: Option<int>)
    returns (rows': seq<AnalysisRow>, done': seq<Match>)
    requires i < |flags| == |jobs| == |outcomes|
    requires flags[i] == id.Some?
    requires done + MatchesFrom(c, flags[i..], jobs[i..], outcomes[i..]) == Matches(flags, jobs, outcomes)
    requires |done| == c.newMatches
    requires analyses == Inserted(a0, na0, rows)
    requires nextA == na0 + c.newMatches
    requires RowsAgree(rows, postings, done, now)
    requires forall k :: k in postings ==> k in postings' && postings'[k] == postings[k]
    requires id.Some? ==> id.value in postings' && postings'[id.value].jobHash == JobKey(jobs[i])
    requires Matched(c, id.Some?, outcomes[i]).Some? ==>
               analyses' == analyses[nextA := AnalysisRow(id.value, Matched(c, id.Some?, outcomes[i]).value, now)]
               && nextA' == nextA + 1
    requires Matched(c, id.Some?, outcomes[i]).None? ==> analyses' == analyses && nextA' == nextA
    ensures var c' := Step(c, id.Some?, outcomes[i]);
            done' + MatchesFrom(c', flags[i + 1..], jobs[i + 1..], outcomes[i + 1..]) == Matches(flags, jobs, outcomes)
            && |done'| == c'.newMatches
            && nextA' == na0 + c'.newMatches
    ensures analyses' == Inserted(a0, na0, rows')
    ensures RowsAgree(rows', postings', done', now)
  {
    DoneStep(flags, jobs, outcomes, i, done, c);
    RowsAgreeGrow(rows, postings, postings', done, now);
    var m := Matched(c, id.Some?, outcomes[i]);
    if m.Some? {
      var row := AnalysisRow(id.value, m.value, now);
      InsertedSnoc(a0, na0, rows, row);
      RowsAgreeSnoc(rows, postings', done, now, row, jobs[i]);
      rows', done' := rows + [row], done + [Match(jobs[i], m.value)];
    } else {
      assert done + [] == done;
      rows', done' := rows, done;
    }
  }

  // ---------------------------------------------------------------------
  // run_job_search

  datatype RunResult =
    | NeedResume          // no active resume, or none with parsed data
    | NoJobs              // the scrape found nothing
    | Completed(counters: Counters)

  /** An active resume whose stored parsed data is non-empty text that does
      not decode to an empty value. */
  predicate HasParsedResume(active: Option<(int, ResumeRow)>, decodesEmpty: string -> bool) {
    active.Some? && Truthy(active.value.1.parsedData) && !decodesEmpty(active.value.1.parsedData.value)
  }

  /** One pass of the loop of `run_job_search`: save the posting and, when
      it got an id and no quota error has been seen, analyse it and save a
      positive-scored analysis for that id. */
  method RunStep(db: DatabaseManager, job: Job, outcome: AnalysisOutcome, c: Counters, now: int)
    returns (c': Counters, id: Option<int>)
    requires db.Valid()
    modifies db
    ensures db.Valid()
    ensures id.Some? <==> JobKey(job) in old(Hashes(db.postings)) || Savable(job)
    ensures id.Some? ==> id.value in db.postings && db.postings[id.value].jobHash == JobKey(job)
    ensures c' == Step(c, id.Some?, outcome)
    ensures Savable(job) && JobKey(job) !in old(Hashes(db.postings)) ==>
              db.postings == old(db.postings)[old(db.nextPostingId) := NewPosting(job, now)]
              && db.nextPostingId == old(db.nextPostingId) + 1
    ensures !(Savable(job) && JobKey(job) !in old(Hashes(db.postings))) ==>
              db.postings == old(db.postings) && db.nextPostingId == old(db.nextPostingId)
    ensures Hashes(db.postings) == old(Hashes(db.postings)) + if Savable(job) then {JobKey(job)} else {}
    ensures forall k :: k in old(db.postings) ==> k in db.postings && db.postings[k] == old(db.postings)[k]
    ensures Matched(c, id.Some?, outcome).Some? ==>
              db.analyses == old(db.analyses)[old(db.nextAnalysisId) :=
                                                AnalysisRow(id.value, Matched(c, id.Some?, outcome).value, now)]
              && db.nextAnalysisId == old(db.nextAnalysisId) + 1
    ensures Matched(c, id.Some?, outcome).None? ==>
              db.analyses == old(db.analyses) && db.nextAnalysisId == old(db.nextAnalysisId)
    ensures db.applications == old(db.applications) && db.resumes == old(db.resumes)
  {
    id := SaveOne(db, job, now);
    c' := c;
    if id.Some? {
      c' := c'.(saved := c'.saved + 1);
      if !c'.quotaExceeded {
        match outcome
        case Returned(a) =>
          if a.Some? && ScoreOr0(a.value) > 0 {
            var _ := db.SaveJobAnalysis(id.value, a.value, now);
            c' := c'.(newMatches := c'.newMatches + 1);
          }
        case Raised(m) =>
          c' := c'.(errors := c'.errors + 1);
          if IsQuotaError(m) {
            c' := c'.(quotaExceeded := true);
          }
      }
    }
  }

  /** `save_job_posting` seen through the stored hashes: a savable job
      whose hash is not stored is inserted under the next id, anything else
      leaves the table as it was. */
  method SaveOne(db: DatabaseManager, job: Job, now: int) returns (id: Option<int>)
    requires db.Valid()
    modifies db
    ensures db.Valid()
    ensures id.Some? <==> JobKey(job) in old(Hashes(db.postings)) || Savable(job)
    ensures id.Some? ==> id.value in db.postings && db.postings[id.value].jobHash == JobKey(job)
    ensures Savable(job) && JobKey(job) !in old(Hashes(db.postings)) ==>
              db.postings == old(db.postings)[old(db.nextPostingId) := NewPosting(job, now)]
              && db.nextPostingId == old(db.nextPostingId) + 1
    ensures !(Savable(job) && JobKey(job) !in old(Hashes(db.postings))) ==>
              db.postings == old(db.postings) && db.nextPostingId == old(db.nextPostingId)
    ensures Hashes(db.postings) == old(Hashes(db.postings)) + if Savable(job) then {JobKey(job)} else {}
    ensures forall k :: k in old(db.postings) ==> k in db.postings && db.postings[k] == old(db.postings)[k]
    ensures db.analyses == old(db.analyses) && db.nextAnalysisId == old(db.nextAnalysisId)
    ensures db.applications == old(db.applications) && db.resumes == old(db.resumes)
  {
    ghost var before := Hashes(db.postings);
    ghost var oldPostings := db.postings;
    ghost var oldNext := db.nextPostingId;
    FindHashIsMembership(db.postings, JobKey(job), db.nextPostingId);
    id := db.SaveJobPosting(job, now);
    if Savable(job) && JobKey(job) !in before {
      HashesInsert(oldPostings, oldNext, NewPosting(job, now));
    }
  }

  /** `run_job_search`. The scraped `jobs` and, for each, the outcome its
      analysis would have are inputs; `decodesEmpty` says which stored
      resume texts decode to an empty value. */
  method RunJobSearch(db: DatabaseManager, decodesEmpty: string -> bool, jobs: seq<Job>,
                      outcomes: seq<AnalysisOutcome>, now: int) returns (result: RunResult)
    requires db.Valid()
    requires |outcomes| == |jobs|
    modifies db
    ensures db.Valid()
    ensures result == NeedResume <==> !HasParsedResume(old(db.GetActiveResume()), decodesEmpty)
    ensures result == NoJobs <==> HasParsedResume(old(db.GetActiveResume()), decodesEmpty) && jobs == []
    ensures !result.Completed? ==>
              db.postings == old(db.postings) && db.nextPostingId == old(db.nextPostingId)
              && db.analyses == old(db.analyses) && db.nextAnalysisId == old(db.nextAnalysisId)
    ensures result.Completed? ==>
              result.counters == RunCounters(SavedFlags(jobs, old(Hashes(db.postings))), outcomes)
              && Hashes(db.postings) == old(Hashes(db.postings)) + SavableKeys(jobs)
    ensures result.Completed? ==>
              db.postings == Inserted(old(db.postings), old(db.nextPostingId),
                                      NewPostings(jobs, old(Hashes(db.postings)), now))
              && db.nextPostingId == old(db.nextPostingId) + |NewPostings(jobs, old(Hashes(db.postings)), now)|
    ensures result.Completed? ==>
              db.analyses == Inserted(old(db.analyses), old(db.nextAnalysisId),
                                      MatchRows(db.postings, db.nextPostingId,
                                                Matches(SavedFlags(jobs, old(Hashes(db.postings))), jobs, outcomes), now))
              && db.nextAnalysisId == old(db.nextAnalysisId) + result.counters.newMatches
              && |Matches(SavedFlags(jobs, old(Hashes(db.postings))), jobs, outcomes)| == result.counters.newMatches
    ensures db.applications == old(db.applications) && db.resumes == old(db.resumes)
  {
    var active := db.GetActiveResume();
    if !HasParsedResume(active, decodesEmpty) {
      return NeedResume;
    }
    if |jobs| == 0 {
      return NoJobs;
    }
    var c := SaveAndAnalyse(db, jobs, outcomes, now);
    result := Completed(c);
  }

  /** The loop of `run_job_search` over the scraped jobs. */
  method SaveAndAnalyse(db: DatabaseManager, jobs: seq<Job>, outcomes: seq<AnalysisOutcome>, now: int)
    returns (c: Counters)
    requires db.Valid()
    requires |outcomes| == |jobs|
    modifies db
    ensures db.Valid()
    ensures c == RunCounters(SavedFlags(jobs, old(Hashes(db.postings))), outcomes)
    ensures Hashes(db.postings) == old(Hashes(db.postings)) + SavableKeys(jobs)
    ensures db.postings == Inserted(old(db.postings), old(db.nextPostingId),
                                    NewPostings(jobs, old(Hashes(db.postings)), now))
    ensures db.nextPostingId == old(db.nextPostingId) + |NewPostings(jobs, old(Hashes(db.postings)), now)|
    ensures db.analyses == Inserted(old(db.analyses), old(db.nextAnalysisId),
                                    MatchRows(db.postings, db.nextPostingId,
                                              Matches(SavedFlags(jobs, old(Hashes(db.postings))), jobs, outcomes), now))
    ensures RowsAgree(MatchRows(db.postings, db.nextPostingId,
                                Matches(SavedFlags(jobs, old(Hashes(db.postings))), jobs, outcomes), now),
                      db.postings, Matches(SavedFlags(jobs, old(Hashes(db.postings))), jobs, outcomes), now)
    ensures db.nextAnalysisId == old(db.nextAnalysisId) + c.newMatches
    ensures |Matches(SavedFlags(jobs, old(Hashes(db.postings))), jobs, outcomes)| == c.newMatches
    ensures db.applications == old(db.applications) && db.resumes == old(db.resumes)
  {
    ghost var known0 := Hashes(db.postings);
    ghost var flags: seq<bool> := [];
    ghost var rows: seq<AnalysisRow> := [];
    ghost var done: seq<Match> := [];
    c := Counters(0, 0, 0, false);
    var i := 0;
    RunSoFarStart(jobs, outcomes, now, known0, db.postings, db.nextPostingId, db.analyses, db.nextAnalysisId);
    while i < |jobs|
      invariant 0 <= i <= |jobs|
      invariant db.Valid()
      invariant RunSoFar(jobs, outcomes, now, known0, old(db.postings), old(db.nextPostingId), old(db.analyses),
                         old(db.nextAnalysisId), i, flags, rows, done, c, db.postings, db.nextPostingId, db.analyses,
                         db.nextAnalysisId)
      invariant db.applications == old(db.applications) && db.resumes == old(db.resumes)
    {
      c, flags, rows, done := Pass(db, jobs, outcomes, now, i, c, known0, old(db.postings), old(db.nextPostingId),
                                   old(db.analyses), old(db.nextAnalysisId), flags, rows, done);
      i := i + 1;
    }
    RunSoFarDone(jobs, outcomes, now, known0, old(db.postings), old(db.nextPostingId), old(db.analyses),
                 old(db.nextAnalysisId), flags, rows, done, c, db.postings, db.nextPostingId, db.analyses,
                 db.nextAnalysisId);
  }

  lemma RunSoFarStart(jobs: seq<Job>, outcomes: seq<AnalysisOutcome>, now: int, known0: set<string>,
                      p0: map<int, Posting>, n0: int, a0: map<int, AnalysisRow>, na0: int)
    requires |jobs| == |outcomes|
    requires known0 == Hashes(p0)
    ensures RunSoFar(jobs, outcomes, now, known0, p0, n0, a0, na0, 0, [], [], [], Counters(0, 0, 0, false),
                     p0, n0, a0, na0)
  {
    assert jobs[0..] == jobs && outcomes[0..] == outcomes && SavedFlags(jobs, known0)[0..] == SavedFlags(jobs, known0);
    assert jobs[..0] == [] && outcomes[..0] == [];
    assert SavableKeys([]) == {};
  }

  /** After the last job the tables hold exactly the run's inserts. */
  lemma RunSoFarDone(jobs: seq<Job>, outcomes: seq<AnalysisOutcome>, now: int, known0: set<string>,
                     p0: map<int, Posting>, n0: int, a0: map<int, AnalysisRow>, na0: int,
                     flags: seq<bool>, rows: seq<AnalysisRow>, done: seq<Match>, c: Counters,
                     postings: map<int, Posting>, next: nat, analyses: map<int, AnalysisRow>, nextA: int)
    requires RunSoFar(jobs, outcomes, now, known0, p0, n0, a0, na0, |jobs|, flags, rows, done, c,
                      postings, next, analyses, nextA)
    requires PostingsValid(postings, next)
    ensures c == RunCounters(SavedFlags(jobs, known0), outcomes)
    ensures Hashes(postings) == known0 + SavableKeys(jobs)
    ensures postings == Inserted(p0, n0, NewPostings(jobs, known0, now))
    ensures next == n0 + |NewPostings(jobs, known0, now)|
    ensures analyses == Inserted(a0, na0, MatchRows(postings, next, Matches(SavedFlags(jobs, known0), jobs, outcomes), now))
    ensures RowsAgree(MatchRows(postings, next, Matches(SavedFlags(jobs, known0), jobs, outcomes), now),
                      postings, Matches(SavedFlags(jobs, known0), jobs, outcomes), now)
    ensures nextA == na0 + c.newMatches
    ensures |Matches(SavedFlags(jobs, known0), jobs, outcomes)| == c.newMatches
  {
    var i := |jobs|;
    assert jobs[i..] == [] && jobs[..i] == jobs && outcomes[..i] == outcomes;
    assert SavedFlags(jobs[i..], Hashes(postings)) == [];
    assert flags == SavedFlags(jobs, known0);
    assert done + [] == done;
    RowsAgreeMatchRows(rows, postings, next, done, now);
  }

  /** What the loop has done after the first i jobs, whose save results are
      `flags`: the counters, the stored hashes and the postings inserted so
      far, and the analysis rows `rows` added so far, which agree with the
      matches `done` found so far; those and the matches the rest of the
      loop finds from the current counters are the run's matches. */
  ghost predicate RunSoFar(jobs: seq<Job>, outcomes: seq<AnalysisOutcome>, now: int, known0: set<string>,
                           p0: map<int, Posting>, n0: int, a0: map<int, AnalysisRow>, na0: int,
                           i: nat, flags: seq<bool>, rows: seq<AnalysisRow>, done: seq<Match>, c: Counters,
                           postings: map<int, Posting>, next: int, analyses: map<int, AnalysisRow>, nextA: int) {
    && i <= |jobs| == |outcomes|
    && |flags| == i
    && flags + SavedFlags(jobs[i..], Hashes(postings)) == SavedFlags(jobs, known0)
    && Hashes(postings) == known0 + SavableKeys(jobs[..i])
    && c == RunCounters(flags, outcomes[..i])
    && postings == Inserted(p0, n0, NewPostings(jobs[..i], known0, now))
    && next == n0 + |NewPostings(jobs[..i], known0, now)|
    && analyses == Inserted(a0, na0, rows)
    && RowsAgree(rows, postings, done, now)
    && done + MatchesFrom(c, SavedFlags(jobs, known0)[i..], jobs[i..], outcomes[i..])
       == Matches(SavedFlags(jobs, known0), jobs, outcomes)
    && |done| == c.newMatches
    && nextA == na0 + c.newMatches
  }

  /** One pass of the loop, with what the loop has written before and after it. */
  method Pass(db: DatabaseManager, jobs: seq<Job>, outcomes: seq<AnalysisOutcome>, now: int, i: nat, c: Counters,
              ghost known0: set<string>, ghost p0: map<int, Posting>, ghost n0: int,
              ghost a0: map<int, AnalysisRow>, ghost na0: int, ghost flags: seq<bool>, ghost rows: seq<AnalysisRow>,
              ghost done: seq<Match>)
    returns (c': Counters, ghost flags': seq<bool>, ghost rows': seq<AnalysisRow>, ghost done': seq<Match>)
    requires i < |jobs|
    requires db.Valid()
    requires RunSoFar(jobs, outcomes, now, known0, p0, n0, a0, na0, i, flags, rows, done, c,
                      db.postings, db.nextPostingId, db.analyses, db.nextAnalysisId)
    modifies db
    ensures db.Valid()
    ensures RunSoFar(jobs, outcomes, now, known0, p0, n0, a0, na0, i + 1, flags', rows', done', c',
                     db.postings, db.nextPostingId, db.analyses, db.nextAnalysisId)
    ensures db.applications == old(db.applications) && db.resumes == old(db.resumes)
  {
    ghost var before := Hashes(db.postings);
    ghost var postings, next := db.postings, db.nextPostingId;
    ghost var analyses, nextA := db.analyses, db.nextAnalysisId;
    var id;
    c', id := RunStep(db, jobs[i], outcomes[i], c, now);
    FlagsStep(jobs, i, flags, id.Some?, known0, before, Hashes(db.postings));
    RunCountersSnoc(flags, id.Some?, outcomes, i);
    PostingsStep(jobs, i, known0, now, p0, n0, postings, next, db.postings, db.nextPostingId);
    flags' := flags + [id.Some?];
    assert SavedFlags(jobs, known0)[i] == flags'[i];
    rows', done' := AnalysesStep(SavedFlags(jobs, known0), jobs, outcomes, i, now, a0, na0, rows, done, c,
                                 analyses, nextA, db.analyses, db.nextAnalysisId, postings, db.postings, id);
  }

  /** What the run reports: analysed matches, a quota notice, a general
      analysis notice, or that nothing new was saved. */
  datatype Feedback = Analyzed(saved: nat, matches: nat) | QuotaLimited(saved: nat) | AnalysisIssues(saved: nat) | NothingSaved

  function RunFeedback(c: Counters): (f: Feedback)
    ensures f.NothingSaved? <==> c.saved == 0
    ensures f.Analyzed? <==> c.saved > 0 && c.newMatches > 0
  {
    if c.saved > 0 then
      if c.newMatches > 0 then Analyzed(c.saved, c.newMatches)
      else if c.quotaExceeded then QuotaLimited(c.saved)
      else AnalysisIssues(c.saved)
    else NothingSaved
  }

  /** With the scorer's outcomes the quota notice is never shown. */
  lemma NoQuotaNoticeFromMatcher(savedFlags: seq<bool>, outcomes: seq<AnalysisOutcome>)
    requires |savedFlags| == |outcomes|
    requires forall i :: 0 <= i < |outcomes| ==> outcomes[i].Returned?
    ensures !RunFeedback(RunCounters(savedFlags, outcomes)).QuotaLimited?
  {
    MatcherNeverSetsQuota(savedFlags, outcomes);
  }

  // ---------------------------------------------------------------------
  // review_jobs pagination

  const ReviewPageSize: nat := 100

  /** `offset = (page - 1) * limit` */
  function ReviewOffset(page: int): int {
    (page - 1) * ReviewPageSize
  }

  /** `max(1, (total_jobs + limit - 1) // limit)` */
  function TotalPages(total: nat): (r: nat)
    ensures r >= 1
    ensures total <= r * ReviewPageSize
    ensures total > 0 ==> (r - 1) * ReviewPageSize < total
    ensures total == 0 ==> r == 1
  {
    var q := (total + ReviewPageSize - 1) / ReviewPageSize;
    if q < 1 then 1 else q
  }

  /** A page number of 1 or less reads the first rows: SQLite takes the
      negative offset as none. */
  lemma LowPageIsFirstPage<T>(rows: seq<T>, page: int)
    requires page <= 1
    ensures Page(rows, ReviewPageSize, ReviewOffset(page)) == Page(rows, ReviewPageSize, 0)
    ensures Page(rows, ReviewPageSize, ReviewOffset(page)) == rows[..Min(ReviewPageSize, |rows|)]
  {
  }

  /** What the review page shows. */
  datatype ReviewView = ReviewView(jobs: seq<JobRow>, currentPage: int, totalPages: nat, totalJobs: nat,
                                   sources: seq<string>)

  /** `review_jobs` as written: the page count comes from the number of
      matching postings. */
  function ReviewJobs(db: DatabaseManager, page: int, statusFilter: string, sourceFilter: string): (v: ReviewView)
    reads db
    ensures |v.jobs| <= ReviewPageSize
    ensures v.totalJobs == db.GetJobsCount(statusFilter, sourceFilter)
    ensures v.totalPages >= 1 && v.totalJobs <= v.totalPages * ReviewPageSize
  {
    var total := db.GetJobsCount(statusFilter, sourceFilter);
    ReviewView(db.GetAllJobs(ReviewPageSize, ReviewOffset(page), statusFilter, sourceFilter),
               page, TotalPages(total), total, db.GetJobSources())
  }

  /** Pages 1..total_pages show the whole listing when no posting has two
      analyses. */
  lemma ReviewPagesCoverListing(db: DatabaseManager, statusFilter: string, sourceFilter: string)
    requires db.Valid()
    requires OneAnalysisPerJob(db.analyses)
    ensures var rows := db.Listing(statusFilter, sourceFilter);
            FirstPages(rows, ReviewPageSize, ReviewJobs(db, 1, statusFilter, sourceFilter).totalPages) == rows
  {
    var rows := db.Listing(statusFilter, sourceFilter);
    var total := db.GetJobsCount(statusFilter, sourceFilter);
    db.JobsCountAgainstListing(statusFilter, sourceFilter);
    FirstPagesArePrefix(rows, ReviewPageSize, TotalPages(total));
    assert rows[..|rows|] == rows;
  }

  lemma {:induction false} ScoresOfLength(analyses: map<int, AnalysisRow>, jobId: int, n: nat, a: int, b: int)
    requires a in analyses && 0 <= a < n && analyses[a].jobId == jobId
    requires b in analyses && a < b < n && analyses[b].jobId == jobId
    ensures |ScoresOf(analyses, jobId, n)| >= 2
    decreases n
  {
    if b < n - 1 {
      ScoresOfLength(analyses, jobId, n - 1, a, b);
    } else {
      assert |ScoresOf(analyses, jobId, n - 1)| > 0 by {
        ScoresOfNonEmpty(analyses, jobId, n - 1, a);
      }
    }
  }

  lemma {:induction false} ScoresOfNonEmpty(analyses: map<int, AnalysisRow>, jobId: int, n: nat, a: int)
    requires a in analyses && 0 <= a < n && analyses[a].jobId == jobId
    ensures |ScoresOf(analyses, jobId, n)| >= 1
    decreases n
  {
    if a < n - 1 {
      ScoresOfNonEmpty(analyses, jobId, n - 1, a);
    }
  }

  /** Every matching posting gives at least one listing row, and one with
      two analyses gives two. */
  lemma {:induction false} JoinedExceedsCount(postings: map<int, Posting>, analyses: map<int, AnalysisRow>,
                                              n: nat, m: nat, statusFilter: string, sourceFilter: string, id: int)
    requires 0 <= id < n && id in postings && MatchesFilters(postings[id], statusFilter, sourceFilter)
    requires |ScoresOf(analyses, id, m)| >= 2
    ensures |Joined(postings, analyses, n, m, statusFilter, sourceFilter)|
         > CountIds(postings, n, JobFilter(statusFilter, sourceFilter))
    decreases n
  {
    if id < n - 1 {
      JoinedExceedsCount(postings, analyses, n - 1, m, statusFilter, sourceFilter, id);
    } else {
      JoinedAtLeastCount(postings, analyses, n - 1, m, statusFilter, sourceFilter);
    }
  }

  lemma {:induction false} JoinedAtLeastCount(postings: map<int, Posting>, analyses: map<int, AnalysisRow>,
                                              n: nat, m: nat, statusFilter: string, sourceFilter: string)
    ensures |Joined(postings, analyses, n, m, statusFilter, sourceFilter)|
         >= CountIds(postings, n, JobFilter(statusFilter, sourceFilter))
    decreases n
  {
    if n > 0 {
      JoinedAtLeastCount(postings, analyses, n - 1, m, statusFilter, sourceFilter);
    }
  }

  /** As written, a posting analysed twice pushes a row past the last page
      whenever the matching postings fill whole pages: with 100 matching
      postings, one of them analysed twice, the listing has 101 rows but
      there is one page. */
  lemma ReviewPagesMissRows(db: DatabaseManager, statusFilter: string, sourceFilter: string, id: int, a: int, b: int)
    requires db.Valid()
    requires id in db.postings && MatchesFilters(db.postings[id], statusFilter, sourceFilter)
    requires a in db.analyses && b in db.analyses && a < b
    requires db.analyses[a].jobId == id && db.analyses[b].jobId == id
    requires db.GetJobsCount(statusFilter, sourceFilter) % ReviewPageSize == 0
    ensures var rows := db.Listing(statusFilter, sourceFilter);
            |FirstPages(rows, ReviewPageSize, ReviewJobs(db, 1, statusFilter, sourceFilter).totalPages)| < |rows|
  {
    var rows := db.Listing(statusFilter, sourceFilter);
    var total := db.GetJobsCount(statusFilter, sourceFilter);
    ScoresOfLength(db.analyses, id, db.nextAnalysisId, a, b);
    JoinedExceedsCount(db.postings, db.analyses, db.nextPostingId, db.nextAnalysisId, statusFilter, sourceFilter, id);
    assert |rows| > total;
    CountIdsIsCardinality(db.postings, db.nextPostingId, JobFilter(statusFilter, sourceFilter));
    assert id in IdsWhere(db.postings, db.nextPostingId, JobFilter(statusFilter, sourceFilter));
    PagesMissRows(rows, total);
  }

  /** Rows beyond `total` are on no page when `total` fills whole pages. */
  lemma PagesMissRows<T>(rows: seq<T>, total: nat)
    requires |rows| > total > 0
    requires total % ReviewPageSize == 0
    ensures |FirstPages(rows, ReviewPageSize, TotalPages(total))| < |rows|
  {
    var q := total / ReviewPageSize;
    assert total == q * ReviewPageSize;
    assert (total + ReviewPageSize - 1) / ReviewPageSize == q;
    FirstPagesArePrefix(rows, ReviewPageSize, TotalPages(total));
  }

  /** `review_jobs` with the page count taken from the listing rows. */
  function ReviewJobsByRows(db: DatabaseManager, page: int, statusFilter: string, sourceFilter: string): (v: ReviewView)
    reads db
    ensures |v.jobs| <= ReviewPageSize
    ensures v.totalJobs == |db.Listing(statusFilter, sourceFilter)|
    ensures v.totalPages >= 1 && v.totalJobs <= v.totalPages * ReviewPageSize
  {
    var total := |db.Listing(statusFilter, sourceFilter)|;
    ReviewView(db.GetAllJobs(ReviewPageSize, ReviewOffset(page), statusFilter, sourceFilter),
               page, TotalPages(total), total, db.GetJobSources())
  }

  /** Counting rows, pages 1..total_pages show the whole listing whatever
      the analyses, and each of them is what `get_all_jobs` returns for it. */
  lemma ReviewPagesByRowsCoverListing(db: DatabaseManager, statusFilter: string, sourceFilter: string, page: int)
    ensures var rows := db.Listing(statusFilter, sourceFilter);
            FirstPages(rows, ReviewPageSize, ReviewJobsByRows(db, 1, statusFilter, sourceFilter).totalPages) == rows
    ensures ReviewJobsByRows(db, page, statusFilter, sourceFilter).jobs
         == Page(db.Listing(statusFilter, sourceFilter), ReviewPageSize, ReviewOffset(page))
  {
    var rows := db.Listing(statusFilter, sourceFilter);
    FirstPagesArePrefix(rows, ReviewPageSize, TotalPages(|rows|));
    assert rows[..|rows|] == rows;
  }

  // ---------------------------------------------------------------------
  // update_job_review

  /** The review status each single-job action sets. */
  function ReviewStatusFor(action: Option<string>): (r: Option<string>)
    ensures r.Some? <==> action == Some("interested") || action == Some("not_interested")
                          || action == Some("mark_reviewed")
    ensures action == Some("mark_reviewed") ==> r == Some("reviewed")
    ensures action == Some("interested") || action == Some("not_interested") ==> r == action
  {
    match action
    case Some("interested") => Some("interested")
    case Some("not_interested") => Some("not_interested")
    case Some("mark_reviewed") => Some("reviewed")
    case _ => None
  }

  datatype ReviewReply = JsonReply(success: bool) | RedirectToReview

  /** `update_job_review`. `notes` is the request's notes value after its
      default '' (None only for a JSON null). `updated` is the store call's
      result when an action was recognised. */
  method UpdateJobReview(db: DatabaseManager, jobId: int, isJson: bool, action: Option<string>,
                         notes: Option<string>, now: int) returns (updated: Option<bool>, reply: ReviewReply)
    requires db.Valid()
    modifies db
    ensures db.Valid()
    ensures reply == if isJson then JsonReply(true) else RedirectToReview
    ensures updated.Some? <==> ReviewStatusFor(action).Some?
    ensures updated.Some? ==> (updated.value <==> jobId in old(db.postings))
    ensures db.postings == match ReviewStatusFor(action)
              case None => old(db.postings)
              case Some(s) =>
                if jobId in old(db.postings)
                then old(db.postings)[jobId := old(db.postings)[jobId].(
                       reviewStatus := s, reviewNotes := notes, reviewedAt := Some(now))]
                else old(db.postings)
    ensures db.analyses == old(db.analyses) && db.applications == old(db.applications)
            && db.resumes == old(db.resumes)
    ensures db.nextPostingId == old(db.nextPostingId) && db.nextAnalysisId == old(db.nextAnalysisId)
            && db.nextApplicationId == old(db.nextApplicationId) && db.nextResumeId == old(db.nextResumeId)
  {
    updated := None;
    if action == Some("interested") {
      var ok := db.MarkJobInterested(jobId, notes, now);
      updated := Some(ok);
    } else if action == Some("not_interested") {
      var ok := db.MarkJobNotInterested(jobId, notes, now);
      updated := Some(ok);
    } else if action == Some("mark_reviewed") {
      var ok := db.MarkJobReviewed(jobId, notes, now);
      updated := Some(ok);
    }
    reply := if isJson then JsonReply(true) else RedirectToReview;
  }

  // ---------------------------------------------------------------------
  // bulk_job_action

  datatype BulkOp = BulkReviewed | BulkInterested | BulkNotInterested | BulkDelete

  function BulkOpOf(action: Option<string>): (r: Option<BulkOp>)
    ensures r.None? <==> action !in {Some("mark_reviewed"), Some("mark_interested"),
                                     Some("mark_not_interested"), Some("delete")}
  {
    match action
    case Some("mark_reviewed") => Some(BulkReviewed)
    case Some("mark_interested") => Some(BulkInterested)
    case Some("mark_not_interested") => Some(BulkNotInterested)
    case Some("delete") => Some(BulkDelete)
    case _ => None
  }

  function BulkStatus(op: BulkOp): string
    requires op != BulkDelete
  {
    match op
    case BulkReviewed => "reviewed"
    case BulkInterested => "interested"
    case BulkNotInterested => "not_interested"
  }

  /** How many of `ids` succeed, one after another, given the posting ids
      `present` at the start: marking succeeds for an existing posting,
      deleting too, and removes it. */
  function BulkSuccesses(present: set<int>, ids: seq<int>, deletes: bool): (n: nat)
    ensures n <= |ids|
    decreases |ids|
  {
    if |ids| == 0 then 0
    else
      (if ids[0] in present then 1 else 0)
      + BulkSuccesses(if deletes then present - {ids[0]} else present, ids[1..], deletes)
  }

  /** BulkSuccesses over `ids[i..]`, stepped by index rather than by slice. */
  ghost function SuccessesFrom(present: set<int>, ids: seq<int>, i: nat, deletes: bool): nat
    requires i <= |ids|
    decreases |ids| - i
  {
    if i == |ids| then 0
    else
      (if ids[i] in present then 1 else 0)
      + SuccessesFrom(if deletes then present - {ids[i]} else present, ids, i + 1, deletes)
  }

  lemma {:induction false} SuccessesFromSlice(present: set<int>, ids: seq<int>, i: nat, deletes: bool)
    requires i <= |ids|
    ensures SuccessesFrom(present, ids, i, deletes) == BulkSuccesses(present, ids[i..], deletes)
    decreases |ids| - i
  {
    if i < |ids| {
      SuccessesFromSlice(if deletes then present - {ids[i]} else present, ids, i + 1, deletes);
      BulkSuccessesStep(present, ids, i, deletes);
    }
  }

  /** The count over `ids[i..]`: the id at i, then the rest. */
  lemma BulkSuccessesStep(present: set<int>, ids: seq<int>, i: nat, deletes: bool)
    requires i < |ids|
    ensures BulkSuccesses(present, ids[i..], deletes)
         == (if ids[i] in present then 1 else 0)
            + BulkSuccesses(if deletes then present - {ids[i]} else present, ids[i + 1..], deletes)
  {
    assert ids[i..][0] == ids[i];
    assert ids[i..][1..] == ids[i + 1..];
  }

  /** Marking counts every selected id that exists, as often as it is
      selected. */
  lemma {:induction false} BulkMarkCount(present: set<int>, ids: seq<int>)
    ensures BulkSuccesses(present, ids, false) == |Keep(ids, (k: int) => k in present)|
    decreases |ids|
  {
    if |ids| > 0 {
      BulkMarkCount(present, ids[1..]);
    }
  }

  /** Deleting counts each existing selected posting once, whatever the
      repetitions. */
  lemma {:induction false} BulkDeleteCount(present: set<int>, ids: seq<int>)
    ensures BulkSuccesses(present, ids, true) == |present * Elems(ids)|
    decreases |ids|
  {
    if |ids| > 0 {
      var x := ids[0];
      BulkDeleteCount(present - {x}, ids[1..]);
      assert Elems(ids) == {x} + Elems(ids[1..]) by {
        ElemsConcat([x], ids[1..]);
        assert ids == [x] + ids[1..];
        assert Elems([x]) == {x};
      }
      MeetCons(present, x, Elems(ids[1..]));
    }
  }

  /** The selected postings, split on the first selected id. */
  lemma MeetCons(present: set<int>, x: int, rest: set<int>)
    ensures |present * ({x} + rest)| == (if x in present then 1 else 0) + |(present - {x}) * rest|
  {
    if x in present {
      assert present * ({x} + rest) == {x} + (present - {x}) * rest;
    } else {
      assert present * ({x} + rest) == (present - {x}) * rest;
    }
  }

  /** A posting after a bulk mark. */
  function Marked(p: Posting, status: string, now: int): Posting {
    p.(reviewStatus := status, reviewNotes := None, reviewedAt := Some(now))
  }

  /** One selected id under a marking action: the store call the action
      names, without notes. */
  method MarkOne(db: DatabaseManager, id: int, op: BulkOp, now: int) returns (ok: bool)
    requires db.Valid()
    requires op != BulkDelete
    modifies db`postings
    ensures db.Valid()
    ensures ok <==> id in old(db.postings)
    ensures db.postings == if ok then old(db.postings)[id := Marked(old(db.postings)[id], BulkStatus(op), now)]
                           else old(db.postings)
  {
    if op == BulkReviewed {
      ok := db.MarkJobReviewed(id, None, now);
    } else if op == BulkInterested {
      ok := db.MarkJobInterested(id, None, now);
    } else {
      ok := db.MarkJobNotInterested(id, None, now);
    }
  }

  /** The postings once those in `done` are marked: the same ids, the
      marked ones changed and the others as they were. */
  ghost predicate MarkedWithin(p: map<int, Posting>, p0: map<int, Posting>, done: set<int>, status: string, now: int) {
    && p.Keys == p0.Keys
    && forall k :: k in p ==> p[k] == if k in done then Marked(p0[k], status, now) else p0[k]
  }

  /** Marking one more id, whether or not it exists. */
  lemma MarkedWithinStep(p: map<int, Posting>, p0: map<int, Posting>, done: set<int>, status: string, now: int,
                         x: int, ok: bool, p1: map<int, Posting>)
    requires MarkedWithin(p, p0, done, status, now)
    requires ok <==> x in p
    requires p1 == if ok then p[x := Marked(p[x], status, now)] else p
    ensures MarkedWithin(p1, p0, done + {x}, status, now)
  {
  }

  /** Once every selected id is done, exactly the selected postings are marked. */
  lemma MarkedWithinAll(p: map<int, Posting>, p0: map<int, Posting>, ids: seq<int>, status: string, now: int)
    requires MarkedWithin(p, p0, PrefixSet(ids, |ids|), status, now)
    ensures p.Keys == p0.Keys
    ensures forall k :: k in p ==> p[k] == if k in ids then Marked(p0[k], status, now) else p0[k]
  {
    forall k | k in p
      ensures p[k] == if k in ids then Marked(p0[k], status, now) else p0[k]
    {
      PrefixSetIsElems(ids, |ids|);
      assert ids[..|ids|] == ids;
      assert k in Elems(ids) <==> k in ids;
    }
  }

  /** One turn of the marking loop: the id is marked when it exists. */
  method MarkTurn(db: DatabaseManager, id: int, op: BulkOp, now: int, ghost p0: map<int, Posting>, ghost done: set<int>)
    returns (ok: bool)
    requires db.Valid()
    requires op != BulkDelete
    requires MarkedWithin(db.postings, p0, done, BulkStatus(op), now)
    modifies db`postings
    ensures db.Valid()
    ensures ok <==> id in p0
    ensures MarkedWithin(db.postings, p0, done + {id}, BulkStatus(op), now)
  {
    ghost var p := db.postings;
    ok := MarkOne(db, id, op, now);
    MarkedWithinStep(p, p0, done, BulkStatus(op), now, id, ok, db.postings);
  }

  /** The loop of `bulk_job_action` for one of the marking actions; the
      notes are left to their default None. */
  method BulkMark(db: DatabaseManager, ids: seq<int>, op: BulkOp, now: int) returns (successCount: nat)
    requires db.Valid()
    requires op != BulkDelete
    modifies db`postings
    ensures db.Valid()
    ensures successCount == BulkSuccesses(old(db.postings).Keys, ids, false)
    ensures db.postings.Keys == old(db.postings).Keys
    ensures forall k :: k in db.postings ==>
              db.postings[k] == if k in ids then Marked(old(db.postings)[k], BulkStatus(op), now)
                                else old(db.postings)[k]
  {
    successCount := 0;
    var i := 0;
    ghost var present := db.postings.Keys;
    while i < |ids|
      invariant 0 <= i <= |ids|
      invariant db.Valid()
      invariant successCount + SuccessesFrom(present, ids, i, false) == SuccessesFrom(present, ids, 0, false)
      invariant MarkedWithin(db.postings, old(db.postings), PrefixSet(ids, i), BulkStatus(op), now)
    {
      var ok := MarkTurn(db, ids[i], op, now, old(db.postings), PrefixSet(ids, i));
      if ok {
        successCount := successCount + 1;
      }
      i := i + 1;
    }
    SuccessesFromSlice(present, ids, 0, false);
    assert ids[0..] == ids;
    MarkedWithinAll(db.postings, old(db.postings), ids, BulkStatus(op), now);
  }

  /** The rows left once the postings in `done` are deleted: the other
      postings, and the analyses and applications that belong to them. */
  ghost predicate RowsWithout(p: map<int, Posting>, a: map<int, AnalysisRow>, ap: map<int, ApplicationRow>,
                              p0: map<int, Posting>, a0: map<int, AnalysisRow>, ap0: map<int, ApplicationRow>,
                              done: set<int>)
  {
    && p == p0 - done
    && (forall k :: k in a <==> k in a0 && a0[k].jobId !in done)
    && (forall k :: k in a ==> a[k] == a0[k])
    && (forall k :: k in ap <==> k in ap0 && ap0[k].jobId !in done)
    && (forall k :: k in ap ==> ap[k] == ap0[k])
  }

  /** Deleting one more posting, with its analyses and applications. */
  lemma RowsWithoutStep(p: map<int, Posting>, a: map<int, AnalysisRow>, ap: map<int, ApplicationRow>,
                        p0: map<int, Posting>, a0: map<int, AnalysisRow>, ap0: map<int, ApplicationRow>,
                        done: set<int>, x: int,
                        p1: map<int, Posting>, a1: map<int, AnalysisRow>, ap1: map<int, ApplicationRow>)
    requires RowsWithout(p, a, ap, p0, a0, ap0, done)
    requires p1 == p - {x}
    requires forall k :: k in a1 <==> k in a && a[k].jobId != x
    requires forall k :: k in a1 ==> a1[k] == a[k]
    requires forall k :: k in ap1 <==> k in ap && ap[k].jobId != x
    requires forall k :: k in ap1 ==> ap1[k] == ap[k]
    ensures RowsWithout(p1, a1, ap1, p0, a0, ap0, done + {x})
  {
  }

  /** The loop of `bulk_job_action` for 'delete'. */
  method BulkDeleteJobs(db: DatabaseManager, ids: seq<int>) returns (successCount: nat)
    requires db.Valid()
    modifies db
    ensures db.Valid()
    ensures successCount == BulkSuccesses(old(db.postings).Keys, ids, true)
    ensures db.postings == old(db.postings) - Elems(ids)
    ensures forall k :: k in db.analyses <==> k in old(db.analyses) && old(db.analyses)[k].jobId !in ids
    ensures forall k :: k in db.analyses ==> db.analyses[k] == old(db.analyses)[k]
    ensures forall k :: k in db.applications <==> k in old(db.applications) && old(db.applications)[k].jobId !in ids
    ensures forall k :: k in db.applications ==> db.applications[k] == old(db.applications)[k]
    ensures db.resumes == old(db.resumes)
    ensures db.nextPostingId == old(db.nextPostingId) && db.nextAnalysisId == old(db.nextAnalysisId)
            && db.nextApplicationId == old(db.nextApplicationId) && db.nextResumeId == old(db.nextResumeId)
  {
    successCount := 0;
    var i := 0;
    ghost var present := db.postings.Keys;
    while i < |ids|
      invariant 0 <= i <= |ids|
      invariant db.Valid()
      invariant successCount + SuccessesFrom(db.postings.Keys, ids, i, true) == SuccessesFrom(present, ids, 0, true)
      invariant RowsWithout(db.postings, db.analyses, db.applications,
                            old(db.postings), old(db.analyses), old(db.applications), PrefixSet(ids, i))
      invariant db.resumes == old(db.resumes)
      invariant db.nextPostingId == old(db.nextPostingId) && db.nextAnalysisId == old(db.nextAnalysisId)
                && db.nextApplicationId == old(db.nextApplicationId) && db.nextResumeId == old(db.nextResumeId)
    {
      ghost var p, a, ap := db.postings, db.analyses, db.applications;
      var ok := db.DeleteJob(ids[i]);
      if ok {
        successCount := successCount + 1;
      }
      RowsWithoutStep(p, a, ap, old(db.postings), old(db.analyses), old(db.applications), PrefixSet(ids, i),
                      ids[i], db.postings, db.analyses, db.applications);
      i := i + 1;
    }
    SuccessesFromSlice(present, ids, 0, true);
    PrefixSetIsElems(ids, |ids|);
    assert ids[..|ids|] == ids && ids[0..] == ids;
  }

  /** `bulk_job_action`: nothing happens for an empty selection or an
      unknown action; otherwise the action runs on each selected id in
      order and the successes are counted. */
  method BulkJobAction(db: DatabaseManager, ids: seq<int>, action: Option<string>, now: int)
    returns (successCount: nat)
    requires db.Valid()
    modifies db
    ensures db.Valid()
    ensures ids == [] || BulkOpOf(action).None? ==>
              successCount == 0 && db.postings == old(db.postings) && db.analyses == old(db.analyses)
              && db.applications == old(db.applications)
    ensures BulkOpOf(action).Some? ==>
              successCount == BulkSuccesses(old(db.postings).Keys, ids, BulkOpOf(action) == Some(BulkDelete))
    ensures BulkOpOf(action) == Some(BulkDelete) ==> db.postings == old(db.postings) - Elems(ids)
    ensures BulkOpOf(action).Some? && BulkOpOf(action) != Some(BulkDelete) ==>
              db.postings.Keys == old(db.postings).Keys
              && forall k :: k in db.postings ==>
                   db.postings[k] == if k in ids then Marked(old(db.postings)[k], BulkStatus(BulkOpOf(action).value), now)
                                     else old(db.postings)[k]
    ensures BulkOpOf(action) == Some(BulkDelete) ==>
              (forall k :: k in db.analyses <==> k in old(db.analyses) && old(db.analyses)[k].jobId !in ids)
              && (forall k :: k in db.analyses ==> db.analyses[k] == old(db.analyses)[k])
              && (forall k :: k in db.applications <==> k in old(db.applications) && old(db.applications)[k].jobId !in ids)
              && (forall k :: k in db.applications ==> db.applications[k] == old(db.applications)[k])
    ensures BulkOpOf(action) != Some(BulkDelete) ==>
              db.analyses == old(db.analyses) && db.applications == old(db.applications)
    ensures db.resumes == old(db.resumes)
    ensures db.nextPostingId == old(db.nextPostingId) && db.nextAnalysisId == old(db.nextAnalysisId)
            && db.nextApplicationId == old(db.nextApplicationId) && db.nextResumeId == old(db.nextResumeId)
  {
    if |ids| == 0 {
      return 0;
    }
    match BulkOpOf(action)
    case None =>
      successCount := 0;
    case Some(op) =>
      if op == BulkDelete {
        successCount := BulkDeleteJobs(db, ids);
      } else {
        successCount := BulkMark(db, ids, op, now);
      }
  }
}
