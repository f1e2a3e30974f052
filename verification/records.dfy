/** The records that flow between the components: job postings as the
    scrapers build them, the compatibility analysis the scorer returns, and
    the candidate profile the resume parser produces. */
module Records {
  import opened Wrappers
  import opened Text

  /** A job posting is a dictionary of text fields ('title', 'company',
      'location', 'description', 'requirements', 'url', 'salary',
      'posted_date', 'source', ...). */
  type Job = map<string, string>

  /** `job.get(k, d)` */
  function Get(job: Job, k: string, d: string): (r: string)
    ensures k in job ==> r == job[k]
    ensures k !in job ==> r == d
  {
    if k in job then job[k] else d
  }

  /** The key identifying a posting across sources: lower-cased title and
      company joined by '_' (the scraper's duplicate key and the store's
      `job_hash`). */
  function JobKey(job: Job): string {
    Lower(Get(job, "title", "")) + "_" + Lower(Get(job, "company", ""))
  }

  /** The analysis object: a parsed model reply or the fallback. A key the
      reply did not contain is `None`. */
  datatype Analysis = Analysis(
    score: Option<int>,                          // compatibility_score
    matchReasons: Option<seq<string>>,           // match_reasons
    skillGaps: Option<seq<string>>,              // skill_gaps
    recommended: Option<bool>,                   // recommended_application
    coverLetterSuggestions: Option<seq<string>>, // cover_letter_suggestions
    interviewPreparation: Option<seq<string>>,   // interview_preparation
    overallAssessment: Option<string>)           // overall_assessment

  /** `analysis.get('compatibility_score', 0)` */
  function ScoreOr0(a: Analysis): int {
    a.score.GetOr(0)
  }

  /** `analysis.get('recommended_application', False)` is truthy */
  predicate IsRecommended(a: Analysis) {
    a.recommended == Some(true)
  }

  /** A job copied with its analysis under 'gemini_analysis'. */
  datatype MatchedJob = MatchedJob(job: Job, analysis: Analysis)

  function MatchedScore(m: MatchedJob): int {
    ScoreOr0(m.analysis)
  }

  /** One work-experience entry of a parsed resume. */
  datatype ExperienceEntry = ExperienceEntry(title: string, description: string, dates: Option<string>)

  /** One education entry of a parsed resume. */
  datatype EducationEntry = EducationEntry(degree: string, description: string)

  /** The parts of a parsed resume that the scorer reads. */
  datatype Profile = Profile(name: Option<string>, skills: seq<string>, experience: seq<ExperienceEntry>)
}
