/** The prompt texts sent to the model (the string assembly of
    `_create_analysis_prompt` and `_create_cover_letter_prompt`). Each
    template is a list of lines joined by '\n'; the fields are filled in as
    whole lines. */
module Prompts {
  import opened Wrappers
  import opened Text
  import opened Records

  // ---------------------------------------------------------------------
  // templates

  lemma {:induction false} JoinContains(parts: seq<string>, sep: string, i: nat)
    requires i < |parts|
    ensures Contains(Join(parts, sep), parts[i])
    decreases |parts|
  {
    if |parts| == 1 {
      ContainsAt(parts[0], parts[0], 0);
    } else if i == 0 {
      ContainsAt(parts[0], parts[0], 0);
      ContainsInConcat(parts[0], sep + Join(parts[1..], sep), parts[0]);
      assert parts[0] + sep + Join(parts[1..], sep) == parts[0] + (sep + Join(parts[1..], sep));
    } else {
      JoinContains(parts[1..], sep, i - 1);
      ContainsInConcat(parts[0] + sep, Join(parts[1..], sep), parts[i]);
    }
  }

  lemma JoinFirst(parts: seq<string>, sep: string)
    requires |parts| > 0 && |parts[0]| > 0
    ensures |Join(parts, sep)| > 0 && Join(parts, sep)[0] == parts[0][0]
  {
  }

  lemma {:induction false} JoinLast(parts: seq<string>, sep: string)
    requires |parts| > 0 && |parts[|parts| - 1]| > 0
    ensures |Join(parts, sep)| > 0
    ensures Join(parts, sep)[|Join(parts, sep)| - 1] == parts[|parts| - 1][|parts[|parts| - 1]| - 1]
    decreases |parts|
  {
    if |parts| > 1 {
      JoinLast(parts[1..], sep);
    }
  }

  /** The first line starts, and the last line ends, with a visible
      character. */
  predicate VisibleEnds(lines: seq<string>) {
    && |lines| > 0
    && |lines[0]| > 0 && !IsSpace(lines[0][0])
    && |lines[|lines| - 1]| > 0 && !IsSpace(lines[|lines| - 1][|lines[|lines| - 1]| - 1])
  }

  /** A triple-quoted template that opens and closes with a newline, filled
      in and stripped. */
  function FillTemplate(lines: seq<string>): string {
    Strip("\n" + Join(lines, "\n") + "\n")
  }

  lemma StripFramed(j: string)
    requires Stripped(j)
    ensures Strip("\n" + j + "\n") == j
  {
    var s := "\n" + j + "\n";
    if j == [] {
      assert s == "\n\n";
      assert LStrip(s) == LStrip(s[1..]);
      assert s[1..] == "\n";
      assert LStrip(s[1..]) == LStrip("");
    } else {
      assert s[1..] == j + "\n";
      assert LStrip(j + "\n") == j + "\n" by { assert (j + "\n")[0] == j[0]; }
      assert (j + "\n")[..|j|] == j;
      assert RStrip(j + "\n") == RStrip(j) by { assert (j + "\n")[|j|] == '\n'; }
      assert j[|j| - 1] == (j + "\n")[|j| - 1];
    }
  }

  /** `strip()` removes only the two framing newlines, so the prompt is the
      lines joined by '\n' and every line survives in it. */
  lemma FilledLines(lines: seq<string>)
    requires VisibleEnds(lines)
    ensures FillTemplate(lines) == Join(lines, "\n")
    ensures forall i :: 0 <= i < |lines| ==> Contains(FillTemplate(lines), lines[i])
  {
    FilledIsJoin(lines);
    forall i | 0 <= i < |lines| ensures Contains(Join(lines, "\n"), lines[i]) {
      JoinContains(lines, "\n", i);
    }
  }

  lemma FilledIsJoin(lines: seq<string>)
    requires VisibleEnds(lines)
    ensures FillTemplate(lines) == Join(lines, "\n")
  {
    JoinFirst(lines, "\n");
    JoinLast(lines, "\n");
    StripFramed(Join(lines, "\n"));
  }

  /** Each of `xs` occurs in `s`. */
  predicate ContainsAll(s: string, xs: seq<string>) {
    forall k :: 0 <= k < |xs| ==> Contains(s, xs[k])
  }

  /** Lines of the filled-in part of a template survive in the prompt. */
  lemma LinesInTemplate(fields: seq<string>, tail: seq<string>, xs: seq<string>, at: seq<nat>)
    requires VisibleEnds(fields + tail)
    requires |at| == |xs|
    requires forall k :: 0 <= k < |xs| ==> at[k] < |fields| && fields[at[k]] == xs[k]
    ensures ContainsAll(FillTemplate(fields + tail), xs)
  {
    FilledLines(fields + tail);
    forall k | 0 <= k < |xs| ensures Contains(FillTemplate(fields + tail), xs[k]) {
      assert (fields + tail)[at[k]] == fields[at[k]];
    }
  }

  // ---------------------------------------------------------------------
  // the candidate's side

  /** `personal_info.get('name', 'Candidate')` */
  function CandidateName(p: Profile): string {
    p.name.GetOr("Candidate")
  }

  /** `', '.join(resume_data.get('skills', []))` */
  function SkillsText(p: Profile): string {
    Join(p.skills, ", ")
  }

  /** `[exp.get('title', '') for exp in resume_data.get('experience', [])]` */
  function ExperienceTitles(p: Profile): (r: seq<string>)
    ensures |r| == |p.experience|
    ensures forall i :: 0 <= i < |r| ==> r[i] == p.experience[i].title
  {
    seq(|p.experience|, i requires 0 <= i < |p.experience| => p.experience[i].title)
  }

  /** `'; '.join(experience_titles)` */
  function ExperienceText(p: Profile): string {
    Join(ExperienceTitles(p), "; ")
  }

  // ---------------------------------------------------------------------
  // _create_analysis_prompt

  const AnalysisOpening := "You are an expert career advisor and "
    + "recruiter. Analyze the compatibility between "
    + "this candidate's resume and job posting."

  /** The lines after the job fields, from the blank line after
      'Requirements:' to the last sentence. */
  const AnalysisInstructions: seq<string> := [
    "",
    "**ANALYSIS INSTRUCTIONS:**",
    "Provide a detailed analysis in JSON format with the following structure:",
    "",
    "{",
    "    \"compatibility_score\": <integer 0-100>,",
    "    \"match_reasons\": [",
    "        \"<reason why this job matches the candidate>\",",
    "        \"<another matching reason>\"",
    "    ],",
    "    \"skill_gaps\": [",
    "        \"<skills the candidate might be missing>\",",
    "        \"<areas for improvement>\"",
    "    ],",
    "    \"recommended_application\": <boolean true/false>,",
    "    \"cover_letter_suggestions\": [",
    "        \"<key point to highlight in cover letter>\",",
    "        \"<another important point>\"",
    "    ],",
    "    \"interview_preparation\": [",
    "        \"<topic to prepare for interview>\",",
    "        \"<another topic>\"",
    "    ],",
    "    \"overall_assessment\": \"<2-3 sentence summary of the match quality>\"",
    "}",
    "",
    "**SCORING CRITERIA:**",
    "- 90-100: Excellent match, highly qualified",
    "- 70-89: Good match, well qualified",
    "- 50-69: Moderate match, some qualifications",
    "- 30-49: Weak match, few qualifications",
    "- 0-29: Poor match, not recommended",
    "",
    "Focus on:",
    "1. Technical skill alignment",
    "2. Experience level match",
    "3. Industry relevance",
    "4. Career progression fit",
    "5. Location compatibility",
    "",
    "Be honest but constructive in your assessment. Only recommend application if score is 50 or above."
  ]

  /** The lines that carry the candidate's and the job's fields. */
  function AnalysisFieldLines(p: Profile, job: Job): seq<string> {
    [ AnalysisOpening,
      "",
      "**CANDIDATE PROFILE:**",
      "Name: " + CandidateName(p),
      "Skills: " + SkillsText(p),
      "Experience: " + ExperienceText(p),
      "",
      "**JOB POSTING:**",
      "Title: " + Get(job, "title", "Unknown Title"),
      "Company: " + Get(job, "company", "Unknown Company"),
      "Location: " + Get(job, "location", "Unknown Location"),
      "Description: " + Get(job, "description", ""),
      "Requirements: " + Get(job, "requirements", "") ]
  }

  /** `_create_analysis_prompt` */
  function AnalysisPrompt(p: Profile, job: Job): string {
    FillTemplate(AnalysisFieldLines(p, job) + AnalysisInstructions)
  }

  lemma AnalysisLinesVisible(p: Profile, job: Job)
    ensures VisibleEnds(AnalysisFieldLines(p, job) + AnalysisInstructions)
  {
    var lines := AnalysisFieldLines(p, job) + AnalysisInstructions;
    assert lines[0][0] == 'Y';
    var last := AnalysisInstructions[|AnalysisInstructions| - 1];
    assert lines[|lines| - 1] == last;
    assert last[|last| - 1] == '.';
  }

  /** The prompt carries the candidate's name (or 'Candidate'), the skills
      joined by ", " and the experience titles joined by "; ". */
  lemma AnalysisPromptCandidate(p: Profile, job: Job)
    ensures ContainsAll(AnalysisPrompt(p, job),
                        [ "Name: " + p.name.GetOr("Candidate"),
                          "Skills: " + Join(p.skills, ", "),
                          "Experience: " + Join(ExperienceTitles(p), "; ") ])
  {
    AnalysisLinesVisible(p, job);
    var f := AnalysisFieldLines(p, job);
    var xs := [ "Name: " + p.name.GetOr("Candidate"),
                "Skills: " + Join(p.skills, ", "),
                "Experience: " + Join(ExperienceTitles(p), "; ") ];
    assert f[3] == xs[0] && f[4] == xs[1] && f[5] == xs[2];
    LinesInTemplate(f, AnalysisInstructions, xs, [3, 4, 5]);
  }

  /** The prompt carries the job's title, company and location; a missing
      one reads 'Unknown Title', 'Unknown Company' or 'Unknown Location'. */
  lemma AnalysisPromptJob(p: Profile, job: Job)
    ensures ContainsAll(AnalysisPrompt(p, job),
                        [ "Title: " + (if "title" in job then job["title"] else "Unknown Title"),
                          "Company: " + (if "company" in job then job["company"] else "Unknown Company"),
                          "Location: " + (if "location" in job then job["location"] else "Unknown Location") ])
  {
    AnalysisLinesVisible(p, job);
    var f := AnalysisFieldLines(p, job);
    var xs := [ "Title: " + (if "title" in job then job["title"] else "Unknown Title"),
                "Company: " + (if "company" in job then job["company"] else "Unknown Company"),
                "Location: " + (if "location" in job then job["location"] else "Unknown Location") ];
    assert f[8] == xs[0] && f[9] == xs[1] && f[10] == xs[2];
    LinesInTemplate(f, AnalysisInstructions, xs, [8, 9, 10]);
  }

  /** The prompt carries the job's description and requirements, '' when
      missing. */
  lemma AnalysisPromptJobText(p: Profile, job: Job)
    ensures ContainsAll(AnalysisPrompt(p, job),
                        [ "Description: " + (if "description" in job then job["description"] else ""),
                          "Requirements: " + (if "requirements" in job then job["requirements"] else "") ])
  {
    AnalysisLinesVisible(p, job);
    var f := AnalysisFieldLines(p, job);
    var xs := [ "Description: " + (if "description" in job then job["description"] else ""),
                "Requirements: " + (if "requirements" in job then job["requirements"] else "") ];
    assert f[11] == xs[0] && f[12] == xs[1];
    LinesInTemplate(f, AnalysisInstructions, xs, [11, 12]);
  }

  // ---------------------------------------------------------------------
  // _create_cover_letter_prompt

  /** `analysis['cover_letter_suggestions']` when an analysis with that key
      is given, `[]` otherwise. */
  function Suggestions(analysis: Option<Analysis>): (r: seq<string>)
    ensures analysis.None? || analysis.value.coverLetterSuggestions.None? ==> r == []
  {
    if analysis.Some? && analysis.value.coverLetterSuggestions.Some?
    then analysis.value.coverLetterSuggestions.value
    else []
  }

  /** The line naming the points to highlight; empty when there are none. */
  function SuggestionsText(suggestions: seq<string>): (r: string)
    ensures |suggestions| == 0 <==> r == ""
    ensures |suggestions| > 0 ==> StartsWith(r, "Key points to highlight: ")
  {
    if |suggestions| > 0 then "Key points to highlight: " + Join(suggestions, "; ") else ""
  }

  /** At most the first 500 characters of the description, then "...". */
  function DescriptionExcerpt(job: Job): (r: string)
    ensures |r| <= 503
    ensures "description" in job && |job["description"]| <= 500 ==> r == job["description"] + "..."
    ensures "description" in job && |job["description"]| > 500 ==> r == job["description"][..500] + "..."
    ensures "description" !in job ==> r == "..."
  {
    Prefix(Get(job, "description", ""), 500) + "..."
  }

  const CoverLetterRequirements: seq<string> := [
    "**REQUIREMENTS:**",
    "1. Professional tone, enthusiastic but not overly casual",
    "2. 3-4 paragraphs maximum",
    "3. Highlight relevant experience and skills",
    "4. Show genuine interest in the company/role",
    "5. Include a strong closing with call to action",
    "6. Make it personal and specific to this role",
    "7. Keep it concise and impactful",
    "",
    "Format as a complete cover letter with proper greeting and closing."
  ]

  function CoverLetterFieldLines(p: Profile, job: Job, analysis: Option<Analysis>): seq<string> {
    [ "Write a professional cover letter "
        + "for this job application:",
      "",
      "**CANDIDATE:** " + CandidateName(p),
      "**POSITION:** " + Get(job, "title", "Unknown Title"),
      "**COMPANY:** " + Get(job, "company", "Unknown Company"),
      "",
      "**CANDIDATE BACKGROUND:**",
      "Skills: " + SkillsText(p),
      "Experience: " + ExperienceText(p),
      "",
      "**JOB DETAILS:**",
      DescriptionExcerpt(job),
      "",
      SuggestionsText(Suggestions(analysis)),
      "" ]
  }

  /** `_create_cover_letter_prompt` */
  function CoverLetterPrompt(p: Profile, job: Job, analysis: Option<Analysis>): string {
    FillTemplate(CoverLetterFieldLines(p, job, analysis) + CoverLetterRequirements)
  }

  lemma CoverLetterLinesVisible(p: Profile, job: Job, analysis: Option<Analysis>)
    ensures VisibleEnds(CoverLetterFieldLines(p, job, analysis) + CoverLetterRequirements)
  {
    var lines := CoverLetterFieldLines(p, job, analysis) + CoverLetterRequirements;
    assert lines[0][0] == 'W';
    var last := CoverLetterRequirements[|CoverLetterRequirements| - 1];
    assert lines[|lines| - 1] == last;
    assert last[|last| - 1] == '.';
  }

  /** The cover-letter prompt carries the name, title and company, or
      'Candidate', 'Unknown Title' and 'Unknown Company'. */
  lemma CoverLetterPromptHeader(p: Profile, job: Job, analysis: Option<Analysis>)
    ensures ContainsAll(CoverLetterPrompt(p, job, analysis),
                        [ "**CANDIDATE:** " + p.name.GetOr("Candidate"),
                          "**POSITION:** " + (if "title" in job then job["title"] else "Unknown Title"),
                          "**COMPANY:** " + (if "company" in job then job["company"] else "Unknown Company") ])
  {
    CoverLetterLinesVisible(p, job, analysis);
    var f := CoverLetterFieldLines(p, job, analysis);
    var xs := [ "**CANDIDATE:** " + p.name.GetOr("Candidate"),
                "**POSITION:** " + (if "title" in job then job["title"] else "Unknown Title"),
                "**COMPANY:** " + (if "company" in job then job["company"] else "Unknown Company") ];
    assert f[2] == xs[0] && f[3] == xs[1] && f[4] == xs[2];
    LinesInTemplate(f, CoverLetterRequirements, xs, [2, 3, 4]);
  }

  /** The cover-letter prompt carries the skills joined by ", " and the
      experience titles joined by "; ". */
  lemma CoverLetterPromptBackground(p: Profile, job: Job, analysis: Option<Analysis>)
    ensures ContainsAll(CoverLetterPrompt(p, job, analysis),
                        [ "Skills: " + Join(p.skills, ", "),
                          "Experience: " + Join(ExperienceTitles(p), "; ") ])
  {
    CoverLetterLinesVisible(p, job, analysis);
    var f := CoverLetterFieldLines(p, job, analysis);
    var xs := [ "Skills: " + Join(p.skills, ", "), "Experience: " + Join(ExperienceTitles(p), "; ") ];
    assert f[7] == xs[0] && f[8] == xs[1];
    LinesInTemplate(f, CoverLetterRequirements, xs, [7, 8]);
  }

  /** The cover-letter prompt carries the description excerpt and the line
      of points to highlight. */
  lemma CoverLetterPromptDetails(p: Profile, job: Job, analysis: Option<Analysis>)
    ensures ContainsAll(CoverLetterPrompt(p, job, analysis),
                        [ DescriptionExcerpt(job), SuggestionsText(Suggestions(analysis)) ])
  {
    CoverLetterLinesVisible(p, job, analysis);
    var f := CoverLetterFieldLines(p, job, analysis);
    assert f[11] == DescriptionExcerpt(job) && f[13] == SuggestionsText(Suggestions(analysis));
    LinesInTemplate(f, CoverLetterRequirements, [ DescriptionExcerpt(job), SuggestionsText(Suggestions(analysis)) ], [11, 13]);
  }
}
