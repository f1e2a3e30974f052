/** Post-processing around the compatibility scorer: the keyword fallback
    used when the model's reply is not JSON, the removal of Markdown code
    fences from the reply, the choice between parsed reply, fallback and
    nothing, the selection and ordering of matches, and batching. The model
    call and the JSON decoder are parameters. */
module GeminiMatcher {
  import opened Wrappers
  import opened Text
  import opened Lists
  import opened Records

  // ---------------------------------------------------------------------
  // Fallback analysis

  const PositiveKeywords: seq<string> := ["good match", "excellent", "qualified", "suitable", "recommend"]
  const NegativeKeywords: seq<string> := ["poor match", "not suitable", "lacks", "missing", "not qualified"]

  /** How many of the keywords occur in the text; each keyword counts once
      however often it occurs. */
  function KeywordHits(keywords: seq<string>, text: string): (n: nat)
    ensures n <= |keywords|
  {
    Count(keywords, k => Contains(text, k))
  }

  /** The positive keywords found in the lower-cased reply. */
  function PositiveHits(text: string): (p: nat)
    ensures p <= |PositiveKeywords|
  {
    KeywordHits(PositiveKeywords, Lower(text))
  }

  function NegativeHits(text: string): (n: nat)
    ensures n <= |NegativeKeywords|
  {
    KeywordHits(NegativeKeywords, Lower(text))
  }

  /** `max(0, min(100, v))` */
  function Clamp100(v: int): (r: int)
    ensures 0 <= r <= 100
    ensures 0 <= v <= 100 ==> r == v
    ensures v < 0 ==> r == 0
    ensures v > 100 ==> r == 100
  {
    if v < 0 then 0 else if v > 100 then 100 else v
  }

  /** Base 60, ten points per positive keyword, minus fifteen per negative
      one, clamped to [0, 100]. */
  function FallbackScore(text: string): (s: int)
    ensures 0 <= s <= 100
  {
    Clamp100(60 + 10 * PositiveHits(text) - 15 * NegativeHits(text))
  }

  const FallbackMatchReason := "Analysis based on text response (JSON parsing failed)"
  const FallbackSkillGap := "Full analysis unavailable due to parsing error"
  const FallbackCoverLetterTip := "Highlight relevant experience and skills"
  const FallbackInterviewTip := "Prepare to discuss your background"
  const AssessmentOpening := "Fallback analysis suggests a "
  const AssessmentClosing := "/100 compatibility score. " + "Full analysis unavailable due to parsing error."

  /** `_create_fallback_analysis`: every field present, the lists holding one
      placeholder each. */
  function FallbackAnalysis(text: string): (a: Analysis)
    ensures a.score == Some(FallbackScore(text))
    ensures a.recommended == Some(FallbackScore(text) >= 50)
    ensures a.matchReasons == Some([FallbackMatchReason]) && a.skillGaps == Some([FallbackSkillGap])
    ensures a.coverLetterSuggestions == Some([FallbackCoverLetterTip])
    ensures a.interviewPreparation == Some([FallbackInterviewTip])
    ensures a.overallAssessment.Some?
  {
    var s := FallbackScore(text);
    Analysis(Some(s), Some([FallbackMatchReason]), Some([FallbackSkillGap]), Some(s >= 50),
             Some([FallbackCoverLetterTip]), Some([FallbackInterviewTip]),
             Some(AssessmentOpening + IntToString(s) + AssessmentClosing))
  }

  /** The fallback recommends applying exactly when its score is at least 50,
      which it always is without a negative keyword and never is with a
      negative keyword but no positive one. */
  lemma FallbackRecommendation(text: string)
    ensures IsRecommended(FallbackAnalysis(text)) <==> ScoreOr0(FallbackAnalysis(text)) >= 50
    ensures NegativeHits(text) == 0 ==> IsRecommended(FallbackAnalysis(text))
    ensures PositiveHits(text) == 0 && NegativeHits(text) > 0 ==> !IsRecommended(FallbackAnalysis(text))
  {
  }

  const TwoPositivesReply := "Good match, excellent"
  const OneEachReply := "Qualified, lacks"

  lemma LowerExamples()
    ensures Lower(TwoPositivesReply) == "good match, excellent"
    ensures Lower(OneEachReply) == "qualified, lacks"
  {
  }

  lemma TwoPositivesPositive()
    ensures KeywordHits(PositiveKeywords, "good match, excellent") == 2
  {
    var t := "good match, excellent";
    assert OccursAt(t, "good match", 0);
    assert OccursAt(t, "excellent", 12);
    NotContainsByChar(t, "qualified", 0);
    NotContainsByChar(t, "suitable", 0);
    NotContainsByChar(t, "recommend", 0);
  }

  lemma TwoPositivesNegative()
    ensures KeywordHits(NegativeKeywords, "good match, excellent") == 0
  {
    var t := "good match, excellent";
    NotContainsByChar(t, "poor match", 0);
    NotContainsByChar(t, "not suitable", 6);
    NotContainsByChar(t, "lacks", 3);
    NotContainsByChar(t, "missing", 1);
    NotContainsByChar(t, "not qualified", 4);
  }

  /** Two positive keywords and no negative one score 80. */
  lemma FallbackTwoPositives()
    ensures FallbackAnalysis(TwoPositivesReply).score == Some(80)
    ensures IsRecommended(FallbackAnalysis(TwoPositivesReply))
  {
    LowerExamples();
    TwoPositivesPositive();
    TwoPositivesNegative();
  }

  lemma OneEachPositive()
    ensures KeywordHits(PositiveKeywords, "qualified, lacks") == 1
  {
    var t := "qualified, lacks";
    assert OccursAt(t, "qualified", 0);
    NotContainsByChar(t, "good match", 0);
    NotContainsByChar(t, "excellent", 1);
    NotContainsByChar(t, "suitable", 3);
    NotContainsByChar(t, "recommend", 0);
  }

  lemma OneEachNegative()
    ensures KeywordHits(NegativeKeywords, "qualified, lacks") == 1
  {
    var t := "qualified, lacks";
    assert OccursAt(t, "lacks", 11);
    NotContainsByChar(t, "poor match", 0);
    NotContainsByChar(t, "not suitable", 0);
    NotContainsByChar(t, "missing", 0);
    NotContainsByChar(t, "not qualified", 0);
  }

  /** One positive and one negative keyword score 55, still recommended. */
  lemma FallbackOneEach()
    ensures FallbackAnalysis(OneEachReply).score == Some(55)
    ensures IsRecommended(FallbackAnalysis(OneEachReply))
  {
    LowerExamples();
    OneEachPositive();
    OneEachNegative();
  }

  // ---------------------------------------------------------------------
  // Code fences

  const JsonFence := "```json"
  const Fence := "```"

  /** The cleaning applied to the reply before JSON decoding: strip; remove
      every '```json' and then every '```' when the reply opens with
      '```json', or every '```' when it opens with '```'; strip again. */
  function StripFences(text: string): (r: string)
    ensures Stripped(r)
    ensures !StartsWith(Strip(text), Fence) ==> r == Strip(text)
  {
    var t := Strip(text);
    JsonFenceIsFence(t);
    if StartsWith(t, JsonFence) then Strip(RemoveAll(RemoveAll(t, JsonFence), Fence))
    else if StartsWith(t, Fence) then Strip(RemoveAll(t, Fence))
    else t
  }

  lemma JsonFenceIsFence(t: string)
    ensures StartsWith(t, JsonFence) ==> StartsWith(t, Fence)
  {
    if StartsWith(t, JsonFence) {
      assert t[..3] == t[..7][..3];
    }
  }

  /** A text that does not start with the pattern's first character keeps
      that character. */
  lemma RemoveAllKeepsHead(a: string, b: string, p: string)
    requires 0 < |p| <= |a + b|
    requires 0 < |a| && a[0] != p[0]
    ensures RemoveAll(a + b, p) == [a[0]] + RemoveAll(a[1..] + b, p)
  {
    var s := a + b;
    assert s[0] == a[0];
    assert s[..|p|] != p by { assert s[..|p|][0] == s[0]; }
    assert s[1..] == a[1..] + b;
  }

  lemma Regroup(a: string, r: string)
    requires |a| > 0
    ensures [a[0]] + (a[1..] + r) == a + r
  {
    assert a == [a[0]] + a[1..];
  }

  /** Removal passes over a prefix holding no character that starts the
      pattern. */
  lemma {:induction false} RemoveAllSkip(a: string, b: string, p: string)
    requires |p| > 0
    requires forall i :: 0 <= i < |a| ==> a[i] != p[0]
    ensures RemoveAll(a + b, p) == a + RemoveAll(b, p)
    decreases |a|
  {
    if |a| == 0 {
      assert a + b == b;
    } else if |a + b| < |p| {
      assert RemoveAll(b, p) == b;
    } else {
      RemoveAllKeepsHead(a, b, p);
      RemoveAllSkip(a[1..], b, p);
      Regroup(a, RemoveAll(b, p));
    }
  }

  /** Whitespace around a stripped text is removed and nothing else. */
  lemma StripNewlines(j: string)
    requires Stripped(j)
    ensures Strip(Inner(j)) == j
  {
    var s := Inner(j);
    if j == [] {
      assert s == "\n\n";
      assert LStrip(s) == LStrip(s[1..]);
      assert s[1..] == "\n";
      assert LStrip(s[1..]) == LStrip("");
    } else {
      assert s[1..] == j + "\n";
      assert LStrip(j + "\n") == j + "\n" by { assert (j + "\n")[0] == j[0]; }
      assert (j + "\n")[..|j|] == j;
      assert RStrip(j + "\n") == RStrip(j) by { assert (j + "\n")[|j|] == '\n'; }
      assert j[|j| - 1] == (j + "\n")[|j| - 1];
    }
  }

  predicate NoBacktick(s: string) {
    forall i :: 0 <= i < |s| ==> s[i] != '`'
  }

  /** A pattern at the front is removed. */
  lemma RemoveAllLead(p: string, x: string)
    requires |p| > 0
    ensures RemoveAll(p + x, p) == RemoveAll(x, p)
  {
    assert (p + x)[..|p|] == p;
    assert (p + x)[|p|..] == x;
  }

  /** A text between an opening and a closing pattern, holding no character
      that starts the closing one, is what removing both leaves. */
  lemma RemoveAllBetween(p: string, x: string, q: string)
    requires 0 < |q| <= |p| && p[0] == q[0]
    requires forall i :: 0 <= i < |x| ==> x[i] != q[0]
    ensures RemoveAll(p + x + q, p) == x + RemoveAll(q, p)
  {
    assert forall i :: 0 <= i < |x| ==> x[i] != p[0];
    calc {
      RemoveAll(p + x + q, p);
      { assert p + x + q == p + (x + q); }
      RemoveAll(p + (x + q), p);
      { RemoveAllLead(p, x + q); }
      RemoveAll(x + q, p);
      { RemoveAllSkip(x, q, p); }
      x + RemoveAll(q, p);
    }
  }

  lemma RemoveAllSelf(p: string)
    requires |p| > 0
    ensures RemoveAll(p, p) == ""
  {
    RemoveAllLead(p, "");
    assert p + "" == p;
  }

  /** The text between the fences, with its newlines. */
  function Inner(j: string): string {
    "\n" + j + "\n"
  }

  lemma InnerNoBacktick(j: string)
    requires NoBacktick(j)
    ensures NoBacktick(Inner(j))
  {
    var x := Inner(j);
    forall i | 0 <= i < |x| ensures x[i] != '`' {
      if 1 <= i <= |j| { assert x[i] == j[i - 1]; }
    }
  }

  /** A fenced reply is its own strip, since it starts and ends with '`'. */
  lemma FencedIsStripped(p: string, j: string)
    requires |p| > 0 && p[0] == '`'
    ensures Strip(p + Inner(j) + Fence) == p + Inner(j) + Fence
  {
    var t := p + Inner(j) + Fence;
    assert t[0] == '`' && t[|t| - 1] == '`';
    StripOfStripped(t);
  }

  /** A reply made of a backtick-free stripped text between '```' fence lines
      leaves exactly that text. */
  lemma FencedRoundTrip(j: string)
    requires Stripped(j) && NoBacktick(j)
    ensures StripFences(Fence + Inner(j) + Fence) == j
  {
    var t := Fence + Inner(j) + Fence;
    FencedIsStripped(Fence, j);
    assert !StartsWith(t, JsonFence) by { assert t[3] == '\n'; }
    InnerNoBacktick(j);
    RemoveAllBetween(Fence, Inner(j), Fence);
    RemoveAllSelf(Fence);
    assert Inner(j) + "" == Inner(j);
    StripNewlines(j);
  }

  /** The same with an opening '```json' fence. */
  lemma JsonFencedRoundTrip(j: string)
    requires Stripped(j) && NoBacktick(j)
    ensures StripFences(JsonFence + Inner(j) + Fence) == j
  {
    var t := JsonFence + Inner(j) + Fence;
    FencedIsStripped(JsonFence, j);
    assert StartsWith(t, JsonFence) by { assert t[..7] == JsonFence; }
    InnerNoBacktick(j);
    RemoveAllBetween(JsonFence, Inner(j), Fence);
    assert RemoveAll(Fence, JsonFence) == Fence;
    assert Inner(j) + Fence == "" + Inner(j) + Fence;
    RemoveAllSkip(Inner(j), Fence, Fence);
    RemoveAllSelf(Fence);
    assert Inner(j) + "" == Inner(j);
    StripNewlines(j);
  }

  /** A reply that is already clean text is decoded as it is. */
  lemma UnfencedUnchanged(j: string)
    requires Stripped(j) && !StartsWith(j, Fence)
    ensures StripFences(j) == j
  {
    StripOfStripped(j);
  }

  // ---------------------------------------------------------------------
  // Result selection

  /** What the model call produced: a reply text, or an exception (while
      building the prompt, calling the model or reading the reply). */
  datatype Generation = Reply(text: string) | Raised

  /** `_analyze_job_compatibility`: `parse` is `json.loads`, None standing
      for a decoding error. */
  function AnalyzeCompatibility(g: Generation, parse: string -> Option<Analysis>): (r: Option<Analysis>)
    ensures g.Raised? || g.text == "" ==> r.None?
    ensures g.Reply? && g.text != "" && parse(StripFences(g.text)).Some? ==> r == parse(StripFences(g.text))
    ensures g.Reply? && g.text != "" && parse(StripFences(g.text)).None? ==> r == Some(FallbackAnalysis(g.text))
  {
    match g
    case Raised => None
    case Reply(text) =>
      if text == "" then None
      else
        match parse(StripFences(text))
        case Some(a) => Some(a)
        case None => Some(FallbackAnalysis(text))
  }

  /** Only a failed call or an empty reply gives no analysis; a reply the
      decoder rejects still gets a score in [0, 100]. */
  lemma AnalyzeNoneIff(g: Generation, parse: string -> Option<Analysis>)
    ensures AnalyzeCompatibility(g, parse).None? <==> g.Raised? || g.text == ""
    ensures g.Reply? && g.text != "" && parse(StripFences(g.text)).None? ==>
              0 <= ScoreOr0(AnalyzeCompatibility(g, parse).value) <= 100
  {
  }

  // ---------------------------------------------------------------------
  // match_jobs

  /** The condition for keeping a job: an analysis with a positive score. */
  predicate IsMatch(o: Option<Analysis>) {
    o.Some? && ScoreOr0(o.value) > 0
  }

  /** The jobs kept, in input order, each with its analysis. */
  function Candidates(jobs: seq<Job>, outcomes: seq<Option<Analysis>>): (r: seq<MatchedJob>)
    requires |outcomes| == |jobs|
    ensures |r| <= |jobs|
  {
    if |jobs| == 0 then []
    else
      var n := |jobs| - 1;
      Candidates(jobs[..n], outcomes[..n])
      + (if IsMatch(outcomes[n]) then [MatchedJob(jobs[n], outcomes[n].value)] else [])
  }

  lemma {:induction false} CandidatesMember(jobs: seq<Job>, outcomes: seq<Option<Analysis>>, m: MatchedJob)
    requires |outcomes| == |jobs|
    ensures m in Candidates(jobs, outcomes) <==>
              exists i :: 0 <= i < |jobs| && jobs[i] == m.job && outcomes[i] == Some(m.analysis)
                          && ScoreOr0(m.analysis) > 0
    decreases |jobs|
  {
    if |jobs| > 0 {
      var n := |jobs| - 1;
      CandidatesMember(jobs[..n], outcomes[..n], m);
      if m in Candidates(jobs[..n], outcomes[..n]) {
        var i :| 0 <= i < n && jobs[..n][i] == m.job && outcomes[..n][i] == Some(m.analysis)
                 && ScoreOr0(m.analysis) > 0;
        assert jobs[i] == m.job && outcomes[i] == Some(m.analysis);
      }
      if exists i :: 0 <= i < |jobs| && jobs[i] == m.job && outcomes[i] == Some(m.analysis)
                     && ScoreOr0(m.analysis) > 0 {
        var i :| 0 <= i < |jobs| && jobs[i] == m.job && outcomes[i] == Some(m.analysis)
                 && ScoreOr0(m.analysis) > 0;
        if i < n {
          assert jobs[..n][i] == m.job && outcomes[..n][i] == Some(m.analysis);
        }
      }
    }
  }

  lemma {:induction false} CandidatesAppend(a: seq<Job>, oa: seq<Option<Analysis>>,
                                            b: seq<Job>, ob: seq<Option<Analysis>>)
    requires |oa| == |a| && |ob| == |b|
    ensures Candidates(a + b, oa + ob) == Candidates(a, oa) + Candidates(b, ob)
    decreases |b|
  {
    if |b| == 0 {
      assert a + b == a && oa + ob == oa;
    } else {
      var n := |b| - 1;
      assert (a + b)[..|a| + n] == a + b[..n];
      assert (oa + ob)[..|a| + n] == oa + ob[..n];
      CandidatesAppend(a, oa, b[..n], ob[..n]);
    }
  }

  /** What `match_jobs` returns for the given per-job analyses. */
  function MatchResult(jobs: seq<Job>, outcomes: seq<Option<Analysis>>): seq<MatchedJob>
    requires |outcomes| == |jobs|
  {
    SortDesc(Candidates(jobs, outcomes), MatchedScore)
  }

  /** The result is ordered by non-increasing score. */
  lemma MatchResultSorted(jobs: seq<Job>, outcomes: seq<Option<Analysis>>)
    requires |outcomes| == |jobs|
    ensures SortedDesc(MatchResult(jobs, outcomes), MatchedScore)
  {
    SortDescSorted(Candidates(jobs, outcomes), MatchedScore);
  }

  /** The result holds exactly the jobs with a positive-score analysis, each
      carrying it. */
  lemma MatchResultMember(jobs: seq<Job>, outcomes: seq<Option<Analysis>>, m: MatchedJob)
    requires |outcomes| == |jobs|
    ensures m in MatchResult(jobs, outcomes) <==>
              exists i :: 0 <= i < |jobs| && jobs[i] == m.job && outcomes[i] == Some(m.analysis)
                          && ScoreOr0(m.analysis) > 0
  {
    var c := Candidates(jobs, outcomes);
    CandidatesMember(jobs, outcomes, m);
    assert m in MatchResult(jobs, outcomes) <==> m in multiset(c);
  }

  /** Jobs with equal scores keep their input order. */
  lemma MatchResultStable(jobs: seq<Job>, outcomes: seq<Option<Analysis>>, v: int)
    requires |outcomes| == |jobs|
    ensures Keep(MatchResult(jobs, outcomes), KeyIs(MatchedScore, v))
         == Keep(Candidates(jobs, outcomes), KeyIs(MatchedScore, v))
  {
    SortDescStable(Candidates(jobs, outcomes), MatchedScore, v);
  }

  /** `match_jobs`: the analyses the model produced for each job are given
      as `outcomes`, an exception standing as None. */
  method MatchJobs(jobs: seq<Job>, outcomes: seq<Option<Analysis>>) returns (matched: seq<MatchedJob>)
    requires |outcomes| == |jobs|
    ensures matched == MatchResult(jobs, outcomes)
    ensures |jobs| == 0 ==> matched == []
  {
    if |jobs| == 0 {
      return [];
    }
    var acc: seq<MatchedJob> := [];
    for i := 0 to |jobs|
      invariant acc == Candidates(jobs[..i], outcomes[..i])
    {
      assert jobs[..i + 1][..i] == jobs[..i] && outcomes[..i + 1][..i] == outcomes[..i];
      if IsMatch(outcomes[i]) {
        acc := acc + [MatchedJob(jobs[i], outcomes[i].value)];
      }
    }
    assert jobs[..|jobs|] == jobs && outcomes[..|jobs|] == outcomes;
    matched := SortDesc(acc, MatchedScore);
  }

  // ---------------------------------------------------------------------
  // batch_analyze_jobs

  /** `[s[i:i + size] for i in range(0, len(s), size)]` */
  function Chunks<T>(s: seq<T>, size: nat): (r: seq<seq<T>>)
    requires size > 0
    ensures forall i :: 0 <= i < |r| ==> 0 < |r[i]| <= size
    decreases |s|
  {
    if |s| == 0 then []
    else if |s| <= size then [s]
    else [s[..size]] + Chunks(s[size..], size)
  }

  function Flatten<T>(ss: seq<seq<T>>): seq<T> {
    if |ss| == 0 then [] else ss[0] + Flatten(ss[1..])
  }

  /** There are ceil(n / size) chunks (the least k with k * size >= n) and
      together they are the input. */
  lemma {:induction false} ChunksSpec<T>(s: seq<T>, size: nat)
    requires size > 0
    ensures |Chunks(s, size)| * size >= |s|
    ensures |Chunks(s, size)| > 0 ==> (|Chunks(s, size)| - 1) * size < |s|
    ensures Flatten(Chunks(s, size)) == s
    decreases |s|
  {
    if |s| == 0 {
    } else if |s| <= size {
      assert Flatten([s]) == s + Flatten([]);
    } else {
      var rest := Chunks(s[size..], size);
      ChunksSpec(s[size..], size);
      assert Chunks(s, size) == [s[..size]] + rest;
      assert |rest| > 0;
      MulSucc(|rest|, size);
      MulSucc(|rest| - 1, size);
      assert ([s[..size]] + rest)[1..] == rest;
      assert s[..size] + s[size..] == s;
    }
  }

  /** What `batch_analyze_jobs` returns: the `match_jobs` results of the
      consecutive chunks, one after another. */
  function BatchResult(jobs: seq<Job>, outcomes: seq<Option<Analysis>>, size: nat): seq<MatchedJob>
    requires |outcomes| == |jobs| && size > 0
    decreases |jobs|
  {
    if |jobs| == 0 then []
    else if |jobs| <= size then MatchResult(jobs, outcomes)
    else MatchResult(jobs[..size], outcomes[..size]) + BatchResult(jobs[size..], outcomes[size..], size)
  }

  /** One turn of the batching loop: the chunk starting at i, then the rest. */
  lemma BatchStep(jobs: seq<Job>, outcomes: seq<Option<Analysis>>, size: nat, i: nat, hi: nat)
    requires |outcomes| == |jobs| && size > 0
    requires i < |jobs| && hi == (if i + size < |jobs| then i + size else |jobs|)
    ensures BatchResult(jobs[i..], outcomes[i..], size)
         == MatchResult(jobs[i..hi], outcomes[i..hi]) + BatchResult(jobs[hi..], outcomes[hi..], size)
  {
    if hi < |jobs| {
      assert jobs[i..][..size] == jobs[i..hi] && outcomes[i..][..size] == outcomes[i..hi];
      assert jobs[i..][size..] == jobs[hi..] && outcomes[i..][size..] == outcomes[hi..];
    } else {
      assert jobs[i..] == jobs[i..hi] && outcomes[i..] == outcomes[i..hi];
      assert BatchResult(jobs[hi..], outcomes[hi..], size) == [];
    }
  }

  /** Batching picks the same matches as one `match_jobs` call over all the
      jobs; only their order can differ. */
  lemma {:induction false} BatchSameMatches(jobs: seq<Job>, outcomes: seq<Option<Analysis>>, size: nat)
    requires |outcomes| == |jobs| && size > 0
    ensures multiset(BatchResult(jobs, outcomes, size)) == multiset(MatchResult(jobs, outcomes))
    decreases |jobs|
  {
    if |jobs| > size {
      BatchSameMatches(jobs[size..], outcomes[size..], size);
      MatchResultSplit(jobs, outcomes, size);
    }
  }

  /** Matching the two halves of a list picks the matches of the whole. */
  lemma MatchResultSplit(jobs: seq<Job>, outcomes: seq<Option<Analysis>>, k: nat)
    requires |outcomes| == |jobs| && k <= |jobs|
    ensures multiset(MatchResult(jobs, outcomes))
         == multiset(MatchResult(jobs[..k], outcomes[..k])) + multiset(MatchResult(jobs[k..], outcomes[k..]))
  {
    assert jobs == jobs[..k] + jobs[k..] && outcomes == outcomes[..k] + outcomes[k..];
    CandidatesAppend(jobs[..k], outcomes[..k], jobs[k..], outcomes[k..]);
  }

  /** With one chunk, batching is `match_jobs`. */
  lemma BatchOneChunk(jobs: seq<Job>, outcomes: seq<Option<Analysis>>, size: nat)
    requires |outcomes| == |jobs| && 0 < size && |jobs| <= size
    ensures BatchResult(jobs, outcomes, size) == MatchResult(jobs, outcomes)
  {
  }

  lemma MatchResultSingle(j: Job, a: Analysis)
    requires ScoreOr0(a) > 0
    ensures MatchResult([j], [Some(a)]) == [MatchedJob(j, a)]
  {
    assert [j][..0] == [] && [Some(a)][..0] == [];
    assert Candidates([j], [Some(a)]) == [MatchedJob(j, a)];
  }

  /** Two jobs in chunks of one: each is matched on its own. */
  lemma BatchTwoSingles(j1: Job, j2: Job, o1: Option<Analysis>, o2: Option<Analysis>)
    ensures BatchResult([j1, j2], [o1, o2], 1) == MatchResult([j1], [o1]) + MatchResult([j2], [o2])
  {
    assert [j1, j2][..1] == [j1] && [j1, j2][1..] == [j2];
    assert [o1, o2][..1] == [o1] && [o1, o2][1..] == [o2];
  }

  /** Across chunks the order is not by score: a low score in the first
      chunk stays ahead of a high score in the second. */
  lemma BatchNotGloballySorted(j1: Job, j2: Job, a1: Analysis, a2: Analysis)
    requires a1.score == Some(10) && a2.score == Some(90)
    ensures !SortedDesc(BatchResult([j1, j2], [Some(a1), Some(a2)], 1), MatchedScore)
  {
    BatchTwoSingles(j1, j2, Some(a1), Some(a2));
    MatchResultSingle(j1, a1);
    MatchResultSingle(j2, a2);
    var r := BatchResult([j1, j2], [Some(a1), Some(a2)], 1);
    assert r == [MatchedJob(j1, a1)] + [MatchedJob(j2, a2)];
    assert r[0] == MatchedJob(j1, a1) && r[1] == MatchedJob(j2, a2);
    assert MatchedScore(r[0]) < MatchedScore(r[1]);
  }

  /** The chunking loop of `batch_analyze_jobs`: `match_jobs` on each
      slice `jobs[i:i + size]`, results appended in chunk order. */
  method MatchInBatches(jobs: seq<Job>, outcomes: seq<Option<Analysis>>, size: nat)
    returns (matched: seq<MatchedJob>)
    requires |outcomes| == |jobs| && size > 0
    ensures matched == BatchResult(jobs, outcomes, size)
  {
    matched := [];
    var i := 0;
    assert jobs[0..] == jobs && outcomes[0..] == outcomes;
    while i < |jobs|
      invariant 0 <= i <= |jobs|
      invariant matched + BatchResult(jobs[i..], outcomes[i..], size) == BatchResult(jobs, outcomes, size)
      decreases |jobs| - i
    {
      var hi := if i + size < |jobs| then i + size else |jobs|;
      var batch := MatchJobs(jobs[i..hi], outcomes[i..hi]);
      BatchStep(jobs, outcomes, size, i, hi);
      var later := BatchResult(jobs[hi..], outcomes[hi..], size);
      assert (matched + batch) + later == matched + (batch + later);
      matched := matched + batch;
      i := hi;
    }
    assert BatchResult(jobs[i..], outcomes[i..], size) == [];
    assert matched + [] == matched;
  }

  /** `batch_analyze_jobs`. `range(0, n, 0)` raises, and a negative step
      gives no chunks. */
  method BatchAnalyzeJobs(jobs: seq<Job>, outcomes: seq<Option<Analysis>>, batchSize: int)
    returns (r: Result<seq<MatchedJob>, string>)
    requires |outcomes| == |jobs|
    ensures |jobs| == 0 ==> r == Ok([])
    ensures |jobs| > 0 && batchSize == 0 ==> r.Err?
    ensures |jobs| > 0 && batchSize < 0 ==> r == Ok([])
    ensures |jobs| > 0 && batchSize > 0 ==> r == Ok(BatchResult(jobs, outcomes, batchSize))
  {
    if |jobs| == 0 {
      return Ok([]);
    }
    if batchSize == 0 {
      return Err("range() arg 3 must not be zero");
    }
    if batchSize < 0 {
      return Ok([]);
    }
    var matched := MatchInBatches(jobs, outcomes, batchSize);
    return Ok(matched);
  }
}
