/** Structuring of resume text (`src/resume_parser.py`): the text is split
    into lines, sections are found by keyword, and the summary, name,
    skills, experience, education and certifications are read off them.
    Text extraction from the files is an input. */
module ResumeParser {
  import opened Wrappers
  import opened Text
  import opened Lists
  import opened Records

  // ---------------------------------------------------------------------
  // Lines

  /** `text.split('\n')` */
  function Lines(text: string): (r: seq<string>)
    ensures |r| >= 1
  {
    SplitOn(text, {'\n'})
  }

  /** `[line.strip() for line in lines]` */
  function StripAll(lines: seq<string>): (r: seq<string>)
    ensures |r| == |lines|
    ensures forall i :: 0 <= i < |lines| ==> r[i] == Strip(lines[i])
  {
    seq(|lines|, i requires 0 <= i < |lines| => Strip(lines[i]))
  }

  predicate NonBlank(s: string) {
    s != ""
  }

  /** `[line.strip() for line in lines if line.strip()]` */
  function NonBlankStripped(lines: seq<string>): (r: seq<string>)
    ensures |r| <= |lines|
    ensures forall k :: 0 <= k < |r| ==> r[k] != "" && Stripped(r[k])
  {
    KeepPreserves(StripAll(lines), NonBlank, Stripped);
    Keep(StripAll(lines), NonBlank)
  }

  /** A string is kept exactly when it is non-blank and some line strips
      to it. */
  lemma NonBlankStrippedMember(lines: seq<string>, x: string)
    ensures x in NonBlankStripped(lines) <==> x != "" && exists i :: 0 <= i < |lines| && Strip(lines[i]) == x
  {
    KeepMember(StripAll(lines), NonBlank, x);
    if x in StripAll(lines) {
      var i :| 0 <= i < |lines| && StripAll(lines)[i] == x;
    }
  }

  // ---------------------------------------------------------------------
  // _find_section

  /** A line naming a section: its lower-cased text contains a keyword. */
  predicate IsHeading(line: string, keywords: seq<string>) {
    ContainsAny(Lower(line), keywords)
  }

  /** `IsHeading` for one keyword list, as a test on lines. */
  function HeadingOf(keywords: seq<string>): string -> bool {
    line => IsHeading(line, keywords)
  }

  const SectionHeaders: seq<string> := ["experience", "education", "skills", "projects"]

  /** A line at which a section stops: stripped, it is upper case and
      longer than 3 characters, or names one of the main sections. */
  predicate EndsSection(line: string) {
    var t := Strip(line);
    (IsUpperStr(t) && |t| > 3) || ContainsAny(Lower(t), SectionHeaders)
  }

  /** The lines of the section under the first heading line. */
  function SectionLines(lines: seq<string>, keywords: seq<string>): Option<seq<string>> {
    var h := FirstIndex(lines, 0, HeadingOf(keywords));
    if h == |lines| then None else Some(lines[h + 1..FirstIndex(lines, h + 1, EndsSection)])
  }

  /** `_find_section`: the section's lines joined by '\n', or None. */
  function SectionOf(text: string, keywords: seq<string>): Option<string> {
    match SectionLines(Lines(text), keywords)
    case None => None
    case Some(ls) => Some(Join(ls, "\n"))
  }

  /** Lines h+1 .. e-1 run on from the heading at line h: none of them
      ends a section, and line e is the end of the text or a line that
      does. */
  predicate RunTo(lines: seq<string>, h: nat, e: nat) {
    h + 1 <= e <= |lines|
    && (forall j :: h + 1 <= j < e ==> !EndsSection(lines[j]))
    && (e == |lines| || EndsSection(lines[e]))
  }

  /** There is no section exactly when no line names a keyword. */
  lemma SectionLinesNone(lines: seq<string>, keywords: seq<string>)
    ensures SectionLines(lines, keywords).None? <==> forall i :: 0 <= i < |lines| ==> !IsHeading(lines[i], keywords)
  {
    var h := FirstIndex(lines, 0, HeadingOf(keywords));
    if h < |lines| {
      assert IsHeading(lines[h], keywords) by {
        assert HeadingOf(keywords)(lines[h]);
      }
    } else {
      forall i | 0 <= i < |lines| ensures !IsHeading(lines[i], keywords) {
        assert !HeadingOf(keywords)(lines[i]);
      }
    }
  }

  /** A section, when there is one, is the run of lines after the first
      line that names a keyword, up to the end of the text or the next
      line that ends a section. */
  lemma SectionLinesSome(lines: seq<string>, keywords: seq<string>)
    requires SectionLines(lines, keywords).Some?
    ensures exists h: nat, e: nat :: h < |lines| && IsHeading(lines[h], keywords)
              && (forall i :: 0 <= i < h ==> !IsHeading(lines[i], keywords))
              && RunTo(lines, h, e)
              && SectionLines(lines, keywords).value == lines[h + 1..e]
  {
    var h := FirstIndex(lines, 0, HeadingOf(keywords));
    forall i | 0 <= i < h ensures !IsHeading(lines[i], keywords) {
      assert !HeadingOf(keywords)(lines[i]);
    }
    assert IsHeading(lines[h], keywords) by {
      assert HeadingOf(keywords)(lines[h]);
    }
    var e := FirstIndex(lines, h + 1, EndsSection);
    assert RunTo(lines, h, e);
  }

  /** `_find_section`, loop by loop. */
  method FindSection(text: string, keywords: seq<string>) returns (section: Option<string>)
    ensures section == SectionOf(text, keywords)
  {
    var lines := Lines(text);
    var i := 0;
    while i < |lines|
      invariant 0 <= i <= |lines|
      invariant FirstIndex(lines, 0, HeadingOf(keywords)) == FirstIndex(lines, i, HeadingOf(keywords))
    {
      if IsHeading(lines[i], keywords) {
        var sectionLines := TakeUntil(lines, i + 1, EndsSection);
        return Some(Join(sectionLines, "\n"));
      }
      i := i + 1;
    }
    return None;
  }

  /** `if section:` -- a section that is missing or empty gives nothing. */
  predicate HasContent(section: Option<string>) {
    section.Some? && section.value != ""
  }

  // ---------------------------------------------------------------------
  // _extract_summary

  const SummaryKeywords: seq<string> := ["summary", "objective", "profile", "about"]

  predicate Blank(s: string) {
    s == ""
  }

  /** The summary lines read after line i: the stripped lines among the
      next four, up to the first blank one. */
  function SummaryLinesAfter(lines: seq<string>, i: nat): (r: seq<string>)
    requires i < |lines|
    ensures |r| <= 4 && i + 1 + |r| <= |lines|
  {
    LeadingLines(lines, i + 1, Min(i + 5, |lines|))
  }

  /** The stripped lines from j up to hi, stopping at the first blank one. */
  function LeadingLines(lines: seq<string>, j: nat, hi: nat): (r: seq<string>)
    requires j <= hi <= |lines|
    ensures j + |r| <= hi
    decreases hi - j
  {
    if j == hi || Strip(lines[j]) == "" then []
    else [Strip(lines[j])] + LeadingLines(lines, j + 1, hi)
  }

  /** The lines taken are the stripped lines from j on, none of them blank,
      and they stop at hi or at the first line that strips to nothing. */
  lemma LeadingLinesSpec(lines: seq<string>, j: nat, hi: nat)
    requires j <= hi <= |lines|
    ensures forall k :: 0 <= k < |LeadingLines(lines, j, hi)| ==>
              LeadingLines(lines, j, hi)[k] == Strip(lines[j + k]) && LeadingLines(lines, j, hi)[k] != ""
    ensures j + |LeadingLines(lines, j, hi)| < hi ==> Strip(lines[j + |LeadingLines(lines, j, hi)|]) == ""
  {
    LeadingLinesElems(lines, j, hi);
    LeadingLinesStop(lines, j, hi);
  }

  lemma {:induction false} LeadingLinesElems(lines: seq<string>, j: nat, hi: nat)
    requires j <= hi <= |lines|
    ensures forall k :: 0 <= k < |LeadingLines(lines, j, hi)| ==>
              LeadingLines(lines, j, hi)[k] == Strip(lines[j + k]) && LeadingLines(lines, j, hi)[k] != ""
    decreases hi - j
  {
    var r := LeadingLines(lines, j, hi);
    if j < hi && Strip(lines[j]) != "" {
      LeadingLinesElems(lines, j + 1, hi);
      var rest := LeadingLines(lines, j + 1, hi);
      assert r == [Strip(lines[j])] + rest;
      forall k | 0 <= k < |r|
        ensures r[k] == Strip(lines[j + k]) && r[k] != ""
      {
        if k > 0 {
          assert r[k] == rest[k - 1];
          assert j + k == (j + 1) + (k - 1);
        }
      }
    }
  }

  lemma {:induction false} LeadingLinesStop(lines: seq<string>, j: nat, hi: nat)
    requires j <= hi <= |lines|
    ensures j + |LeadingLines(lines, j, hi)| < hi ==> Strip(lines[j + |LeadingLines(lines, j, hi)|]) == ""
    decreases hi - j
  {
    if j < hi && Strip(lines[j]) != "" {
      LeadingLinesStop(lines, j + 1, hi);
      assert |LeadingLines(lines, j, hi)| == 1 + |LeadingLines(lines, j + 1, hi)|;
    }
  }

  /** The summary from the first heading at or after i that has lines. */
  function SummaryFrom(lines: seq<string>, keywords: seq<string>, i: nat): string
    decreases |lines| - i
  {
    if i >= |lines| then ""
    else if IsHeading(lines[i], keywords) && SummaryLinesAfter(lines, i) != [] then
      Join(SummaryLinesAfter(lines, i), " ")
    else SummaryFrom(lines, keywords, i + 1)
  }

  function Summary(text: string): string {
    SummaryFrom(Lines(text), SummaryKeywords, 0)
  }

  lemma {:induction false} JoinNonEmpty(parts: seq<string>, sep: string)
    requires |parts| > 0 && parts[0] != ""
    ensures Join(parts, sep) != ""
  {
    if |parts| > 1 {
      assert Join(parts, sep) == parts[0] + sep + Join(parts[1..], sep);
    }
  }

  /** Line k is a summary heading with at least one summary line after it. */
  predicate Yields(lines: seq<string>, keywords: seq<string>, k: nat)
    requires k < |lines|
  {
    IsHeading(lines[k], keywords) && SummaryLinesAfter(lines, k) != []
  }

  /** The first line at or after i that yields summary lines, or |lines|
      when there is none. */
  function FirstYield(lines: seq<string>, keywords: seq<string>, i: nat): (k: nat)
    requires i <= |lines|
    ensures i <= k <= |lines|
    ensures k < |lines| ==> Yields(lines, keywords, k)
    ensures forall k' :: i <= k' < k ==> !Yields(lines, keywords, k')
    decreases |lines| - i
  {
    if i == |lines| || Yields(lines, keywords, i) then i else FirstYield(lines, keywords, i + 1)
  }

  /** The scan from i returns what the first yielding heading gives. */
  lemma {:induction false} SummaryAtFirst(lines: seq<string>, keywords: seq<string>, i: nat)
    requires i <= |lines|
    ensures var k := FirstYield(lines, keywords, i);
            SummaryFrom(lines, keywords, i) == if k < |lines| then Join(SummaryLinesAfter(lines, k), " ") else ""
    decreases |lines| - i
  {
    if i < |lines| && !Yields(lines, keywords, i) {
      SummaryAtFirst(lines, keywords, i + 1);
    }
  }

  /** The summary is empty exactly when no summary heading has a non-blank
      line right after it; otherwise it is the first such heading's lines
      (one to four of them, stripped) joined by spaces. */
  lemma SummarySpec(lines: seq<string>, keywords: seq<string>, i: nat)
    requires i <= |lines|
    ensures SummaryFrom(lines, keywords, i) == ""
        <==> forall k :: i <= k < |lines| ==> !Yields(lines, keywords, k)
    ensures SummaryFrom(lines, keywords, i) != "" ==>
              exists k :: i <= k < |lines| && Yields(lines, keywords, k)
                && (forall k' :: i <= k' < k ==> !Yields(lines, keywords, k'))
                && |SummaryLinesAfter(lines, k)| <= 4
                && SummaryFrom(lines, keywords, i) == Join(SummaryLinesAfter(lines, k), " ")
  {
    var k := FirstYield(lines, keywords, i);
    SummaryAtFirst(lines, keywords, i);
    if k < |lines| {
      LeadingLinesSpec(lines, k + 1, Min(k + 5, |lines|));
      JoinNonEmpty(SummaryLinesAfter(lines, k), " ");
    }
  }

  /** `_extract_summary`. */
  method ExtractSummary(text: string) returns (summary: string)
    ensures summary == Summary(text)
  {
    summary := ScanSummary(Lines(text), SummaryKeywords);
  }

  /** The loops of `_extract_summary` over the lines, for a keyword list. */
  method ScanSummary(lines: seq<string>, keywords: seq<string>) returns (summary: string)
    ensures summary == SummaryFrom(lines, keywords, 0)
  {
    var i := 0;
    while i < |lines|
      invariant 0 <= i <= |lines|
      invariant SummaryFrom(lines, keywords, 0) == SummaryFrom(lines, keywords, i)
    {
      if IsHeading(lines[i], keywords) {
        var taken := SummaryLines(lines, i);
        if taken != [] {
          return Join(taken, " ");
        }
      }
      i := i + 1;
    }
    return "";
  }

  /** The inner loop: up to four stripped lines after line i, stopping at
      a blank one. */
  method SummaryLines(lines: seq<string>, i: nat) returns (taken: seq<string>)
    requires i < |lines|
    ensures taken == SummaryLinesAfter(lines, i)
  {
    var hi := Min(i + 5, |lines|);
    taken := [];
    var j := i + 1;
    while j < hi
      invariant i + 1 <= j <= hi
      invariant taken + LeadingLines(lines, j, hi) == LeadingLines(lines, i + 1, hi)
    {
      var t := Strip(lines[j]);
      if t == "" {
        assert LeadingLines(lines, j, hi) == [];
        break;
      }
      assert LeadingLines(lines, j, hi) == [t] + LeadingLines(lines, j + 1, hi);
      assert taken + [t] + LeadingLines(lines, j + 1, hi) == taken + ([t] + LeadingLines(lines, j + 1, hi));
      taken := taken + [t];
      j := j + 1;
    }
  }

  // ---------------------------------------------------------------------
  // The name heuristic of _extract_personal_info

  /** A stripped line taken for a name: non-empty, none of '@', '+', '(',
      ')', two to four words and under 50 characters. */
  predicate LooksLikeName(t: string) {
    t != "" && '@' !in t && '+' !in t && '(' !in t && ')' !in t
    && 2 <= |Words(t)| <= 4 && |t| < 50
  }

  predicate NameLine(line: string) {
    LooksLikeName(Strip(line))
  }

  /** The name: the first of the first five lines that, stripped, looks
      like a name. */
  function NameOf(text: string): (r: Option<string>)
    ensures r.Some? ==> LooksLikeName(r.value)
    ensures r.Some? ==> exists k :: 0 <= k < Min(5, |Lines(text)|) && Strip(Lines(text)[k]) == r.value
                          && forall j :: 0 <= j < k ==> !NameLine(Lines(text)[j])
    ensures r.None? <==> forall k :: 0 <= k < Min(5, |Lines(text)|) ==> !NameLine(Lines(text)[k])
  {
    var lines := Lines(text);
    var first := lines[..Min(5, |lines|)];
    var k := FirstIndex(first, 0, NameLine);
    assert forall j :: 0 <= j < |first| ==> first[j] == lines[j];
    if k == |first| then None else Some(Strip(first[k]))
  }

  /** The name scan of `_extract_personal_info`. */
  method ExtractName(text: string) returns (name: Option<string>)
    ensures name == NameOf(text)
  {
    var lines := Lines(text);
    var first := lines[..Min(5, |lines|)];
    name := None;
    var i := 0;
    while i < |first|
      invariant 0 <= i <= |first|
      invariant FirstIndex(first, 0, NameLine) == FirstIndex(first, i, NameLine)
    {
      var line := Strip(first[i]);
      if LooksLikeName(line) {
        name := Some(line);
        return;
      }
      i := i + 1;
    }
  }

  // ---------------------------------------------------------------------
  // _extract_skills

  /** The categories of `_load_skill_patterns`, all lower case already, so
      `skill.lower()` is the name itself. */
  const ProgrammingLanguages: seq<string> := [
    "python", "java", "javascript", "typescript", "c++", "c#", "go", "rust",
    "php", "ruby", "swift", "kotlin", "scala", "r", "matlab", "sql"]
  const WebTechnologies: seq<string> := [
    "html", "css", "react", "angular", "vue", "node.js", "express",
    "django", "flask", "spring", "asp.net", "laravel", "rails"]
  const Databases: seq<string> := [
    "mysql", "postgresql", "mongodb", "redis", "sqlite", "oracle",
    "sql server", "elasticsearch", "cassandra", "dynamodb"]
  const CloudPlatforms: seq<string> := [
    "aws", "azure", "google cloud", "gcp", "docker", "kubernetes",
    "terraform", "ansible", "jenkins", "gitlab ci", "github actions"]
  const ToolsFrameworks: seq<string> := [
    "git", "linux", "ubuntu", "bash", "powershell", "vim", "vscode",
    "intellij", "eclipse", "postman", "swagger", "jira", "confluence"]

  /** `self.skill_patterns`, the categories one after the other. */
  const SkillPatterns: seq<string> :=
    ProgrammingLanguages + WebTechnologies + Databases + CloudPlatforms + ToolsFrameworks

  const SkillsSectionKeywords: seq<string> := ["skills", "technical skills", "technologies"]

  /** The characters of `re.split('[,;•\n]', ...)`. */
  const SkillSeparators: set<char> := {',', ';', '\U{2022}', '\n'}

  /** A word character right before position p. */
  predicate WordBefore(t: string, p: nat) {
    0 < p <= |t| && IsWordChar(t[p - 1])
  }

  /** A word character at position p. */
  predicate WordAt(t: string, p: nat) {
    p < |t| && IsWordChar(t[p])
  }

  /** `\b` at position p: a word character on exactly one side. */
  predicate WordBoundary(t: string, p: nat) {
    WordBefore(t, p) != WordAt(t, p)
  }

  /** `re.search(r'\b' + re.escape(skill) + r'\b', t)`, as written. */
  predicate WordMatch(t: string, skill: string) {
    exists i: nat | i <= |t| :: OccursAt(t, skill, i) && WordBoundary(t, i) && WordBoundary(t, i + |skill|)
  }

  /** The skill as a stand-alone token: it occurs with no word character
      right before or right after it. */
  predicate SkillMatch(t: string, skill: string) {
    exists i: nat | i <= |t| :: OccursAt(t, skill, i) && !WordBefore(t, i) && !WordAt(t, i + |skill|)
  }

  /** For a skill that starts and ends with a word character, `\b` on both
      sides means exactly a stand-alone token: the two tests agree. */
  lemma SkillMatchAgrees(t: string, skill: string)
    requires |skill| > 0 && IsWordChar(skill[0]) && IsWordChar(skill[|skill| - 1])
    ensures WordMatch(t, skill) <==> SkillMatch(t, skill)
  {
    forall i: nat | i <= |t| && OccursAt(t, skill, i)
      ensures WordBoundary(t, i) <==> !WordBefore(t, i)
      ensures WordBoundary(t, i + |skill|) <==> !WordAt(t, i + |skill|)
    {
      assert t[i] == skill[0];
      assert t[i + |skill| - 1] == skill[|skill| - 1];
    }
    if WordMatch(t, skill) {
      var i: nat :| i <= |t| && OccursAt(t, skill, i) && WordBoundary(t, i) && WordBoundary(t, i + |skill|);
      assert !WordBefore(t, i) && !WordAt(t, i + |skill|);
    }
    if SkillMatch(t, skill) {
      var i: nat :| i <= |t| && OccursAt(t, skill, i) && !WordBefore(t, i) && !WordAt(t, i + |skill|);
      assert WordBoundary(t, i) && WordBoundary(t, i + |skill|);
    }
  }

  /** The trailing `\b` after '+' needs a word character to follow, so the
      pattern for 'c++' misses "c++ dev"; the stand-alone test finds it. */
  lemma WordMatchMissesCpp()
    ensures "c++" in ProgrammingLanguages
    ensures !WordMatch("c++ dev", "c++")
    ensures SkillMatch("c++ dev", "c++")
  {
    var t := "c++ dev";
    assert ProgrammingLanguages[4] == "c++";
    forall i: nat | i <= |t| ensures !(OccursAt(t, "c++", i) && WordBoundary(t, i) && WordBoundary(t, i + 3)) {
      if i == 0 {
        assert !WordBefore(t, 3) && !WordAt(t, 3);
      } else if i + 3 <= |t| {
        assert t[i] != 'c';
        assert t[i..i + 3][0] == t[i];
      }
    }
    assert OccursAt(t, "c++", 0) && !WordBefore(t, 0) && !WordAt(t, 3);
  }

  /** The skills named in the text: `found` is the regex search of one
      skill in the lower-cased text. */
  function FoundIn(t: string, found: (string, string) -> bool): string -> bool {
    skill => found(t, skill)
  }

  /** A section item kept as a skill: non-empty and under 30 characters. */
  predicate IsSkillItem(item: string) {
    item != "" && |item| < 30
  }

  /** The items of a skills section: split on the separators, stripped,
      and kept when they are skill items. */
  function SectionItems(section: string): (r: seq<string>)
    ensures forall k :: 0 <= k < |r| ==> IsSkillItem(r[k]) && Stripped(r[k])
  {
    var r := Keep(StripAll(SplitOn(section, SkillSeparators)), IsSkillItem);
    KeepPreserves(StripAll(SplitOn(section, SkillSeparators)), IsSkillItem, Stripped);
    r
  }

  /** The skills-section items of the text; none when there is no section
      or it is empty. */
  function SectionSkillItems(text: string): seq<string> {
    var section := SectionOf(text, SkillsSectionKeywords);
    if HasContent(section) then SectionItems(section.value) else []
  }

  /** `_extract_skills` with the given patterns and matcher: the names of
      the patterns found in the lower-cased text, and the skills-section
      items, sorted and without duplicates. */
  function SkillsWith(text: string, patterns: seq<string>, found: (string, string) -> bool): seq<string> {
    SortedUnique(Keep(patterns, FoundIn(Lower(text), found)) + SectionSkillItems(text))
  }

  /** `_extract_skills` on the parser's patterns, with the `\b` search as
      written; sorted without duplicates. */
  function Skills(text: string): (r: seq<string>)
    ensures StrictlyIncreasing(r)
  {
    SkillsSpec(text, SkillPatterns, WordMatch, "");
    SkillsWith(text, SkillPatterns, WordMatch)
  }

  /** A skill is listed iff the `\b` search finds its pattern in the
      lower-cased text, or it is a skills-section item. */
  lemma SkillsMember(text: string, x: string)
    ensures x in Skills(text) <==>
              (x in SkillPatterns && WordMatch(Lower(text), x)) || x in SectionSkillItems(text)
  {
    SkillsSpec(text, SkillPatterns, WordMatch, x);
  }

  /** `_extract_skills` as evidently intended: each skill found as a
      stand-alone token, so that 'c++' and 'c#' are found too. */
  function SkillsIntended(text: string): seq<string> {
    SkillsWith(text, SkillPatterns, SkillMatch)
  }

  /** The parser and its intended form list the same skill names that start
      and end with a word character; they can differ only on names such as
      'c++' and 'c#', and on no section item. */
  lemma SkillsIntendedAgree(text: string, x: string)
    requires x !in SkillPatterns || (|x| > 0 && IsWordChar(x[0]) && IsWordChar(x[|x| - 1]))
    ensures x in Skills(text) <==> x in SkillsIntended(text)
  {
    SkillsMember(text, x);
    SkillsSpec(text, SkillPatterns, SkillMatch, x);
    if x in SkillPatterns {
      SkillMatchAgrees(Lower(text), x);
    }
  }

  /** The result is sorted, holds no name twice, and holds exactly the
      patterns found in the text and the section items. */
  lemma SkillsSpec(text: string, patterns: seq<string>, found: (string, string) -> bool, x: string)
    ensures StrictlyIncreasing(SkillsWith(text, patterns, found))
    ensures x in SkillsWith(text, patterns, found) <==>
              (x in patterns && found(Lower(text), x)) || x in SectionSkillItems(text)
  {
    var named := Keep(patterns, FoundIn(Lower(text), found));
    SortedUniqueIncreasing(named + SectionSkillItems(text));
    KeepMember(patterns, FoundIn(Lower(text), found), x);
    assert x in SkillsWith(text, patterns, found) <==> x in Elems(named + SectionSkillItems(text));
  }

  /** Every section item among the skills is a non-empty stripped string
      under 30 characters. */
  lemma SectionSkillItemsShort(text: string, x: string)
    requires x in SectionSkillItems(text)
    ensures x != "" && |x| < 30 && Stripped(x)
  {
    var section := SectionOf(text, SkillsSectionKeywords);
    var k :| 0 <= k < |SectionItems(section.value)| && SectionItems(section.value)[k] == x;
  }

  /** `_extract_skills`, loop by loop: the pattern loop, then the loop over
      the stripped section pieces. */
  method ExtractSkills(text: string, patterns: seq<string>, found: (string, string) -> bool) returns (skills: seq<string>)
    ensures skills == SkillsWith(text, patterns, found)
  {
    var named := Select(patterns, FoundIn(Lower(text), found));
    var section := FindSection(text, SkillsSectionKeywords);
    var items: seq<string> := [];
    if section.Some? && section.value != "" {
      items := Select(StripAll(SplitOn(section.value, SkillSeparators)), IsSkillItem);
    }
    skills := SortedUnique(named + items);
  }

  // ---------------------------------------------------------------------
  // _extract_experience

  const ExperienceKeywords: seq<string> := ["experience", "work experience", "employment"]

  /** From `from` on, an upper-case letter comes before any lower-case one:
      `[^a-z]*[A-Z]` matches there. */
  predicate UpperBeforeLower(t: string, from: nat)
    decreases |t| - from
  {
    from < |t| && (IsUpperChar(t[from]) || (!IsLowerChar(t[from]) && UpperBeforeLower(t, from + 1)))
  }

  lemma {:induction false} UpperBeforeLowerSpec(t: string, from: nat)
    ensures UpperBeforeLower(t, from) <==>
              exists r :: from <= r < |t| && IsUpperChar(t[r]) && forall m :: from <= m < r ==> !IsLowerChar(t[m])
    decreases |t| - from
  {
    if from < |t| && !IsUpperChar(t[from]) {
      UpperBeforeLowerSpec(t, from + 1);
      if !IsLowerChar(t[from]) {
        if exists r :: from + 1 <= r < |t| && IsUpperChar(t[r]) && forall m :: from + 1 <= m < r ==> !IsLowerChar(t[m]) {
          var r :| from + 1 <= r < |t| && IsUpperChar(t[r]) && forall m :: from + 1 <= m < r ==> !IsLowerChar(t[m]);
          assert forall m :: from <= m < r ==> !IsLowerChar(t[m]);
        }
      }
    }
  }

  /** A line break that starts a new job entry: `\n(?=[A-Z][^a-z]*[A-Z])`,
      a newline followed by an upper-case letter and then, before any
      lower-case letter, another upper-case one. */
  predicate JobBreak(t: string, p: nat) {
    p + 1 < |t| && t[p] == '\n' && IsUpperChar(t[p + 1]) && UpperBeforeLower(t, p + 2)
  }

  function JobBreaks(t: string): nat -> bool {
    (p: nat) => JobBreak(t, p)
  }

  /** The first index at or after `from` that `brk` picks, or |t|. */
  function NextBreak(t: string, from: nat, brk: nat -> bool): (k: nat)
    requires from <= |t|
    ensures from <= k <= |t|
    ensures k < |t| ==> brk(k)
    ensures forall i :: from <= i < k ==> !brk(i)
    decreases |t| - from
  {
    if from == |t| then from
    else if brk(from) then from
    else NextBreak(t, from + 1, brk)
  }

  /** `re.split` with a one-character pattern that matches at the indices
      `brk` picks: the pieces of t[start..] between those indices. */
  function PiecesFrom(t: string, start: nat, brk: nat -> bool): (r: seq<string>)
    requires start <= |t|
    ensures |r| >= 1
    decreases |t| - start
  {
    var k := NextBreak(t, start, brk);
    if k == |t| then [t[start..]] else [t[start..k]] + PiecesFrom(t, k + 1, brk)
  }

  /** When every picked index holds a newline, joining the pieces with
      newlines gives the text back: the split loses nothing but the
      newlines it splits at. */
  lemma {:induction false} JoinPieces(t: string, start: nat, brk: nat -> bool)
    requires start <= |t|
    requires forall i :: 0 <= i < |t| && brk(i) ==> t[i] == '\n'
    ensures Join(PiecesFrom(t, start, brk), "\n") == t[start..]
    decreases |t| - start
  {
    var k := NextBreak(t, start, brk);
    if k < |t| {
      JoinPieces(t, k + 1, brk);
      var rest := PiecesFrom(t, k + 1, brk);
      assert PiecesFrom(t, start, brk)[1..] == rest;
      assert t[start..] == t[start..k] + "\n" + t[k + 1..];
    }
  }

  /** `re.split(r'\n(?=[A-Z][^a-z]*[A-Z])', section)` */
  function JobPieces(section: string): seq<string> {
    PiecesFrom(section, 0, JobBreaks(section))
  }

  lemma JoinJobPieces(section: string)
    ensures Join(JobPieces(section), "\n") == section
  {
    JoinPieces(section, 0, JobBreaks(section));
  }

  /** `\b\d{4}\b`: four digits between word boundaries. */
  predicate HasYear(line: string) {
    exists i: nat | i + 4 <= |line| ::
      IsDigit(line[i]) && IsDigit(line[i + 1]) && IsDigit(line[i + 2]) && IsDigit(line[i + 3])
      && WordBoundary(line, i) && WordBoundary(line, i + 4)
  }

  /** The first of the first three lines that holds a year. */
  function DatesOf(lines: seq<string>): Option<string> {
    var first := lines[..Min(3, |lines|)];
    var k := FirstIndex(first, 0, HasYear);
    if k == |first| then None else Some(first[k])
  }

  /** There are dates exactly when one of the first three lines holds a
      year, and they are the first such line. */
  lemma DatesOfSpec(lines: seq<string>)
    ensures DatesOf(lines).Some? <==> exists k :: 0 <= k < Min(3, |lines|) && HasYear(lines[k])
    ensures DatesOf(lines).Some? ==>
              exists k :: 0 <= k < Min(3, |lines|) && lines[k] == DatesOf(lines).value && HasYear(lines[k])
                && forall j :: 0 <= j < k ==> !HasYear(lines[j])
  {
    var first := lines[..Min(3, |lines|)];
    assert forall j :: 0 <= j < |first| ==> first[j] == lines[j];
    var k := FirstIndex(first, 0, HasYear);
    if k < |first| {
      assert HasYear(lines[k]);
    }
  }

  /** The entry made of the stripped non-blank lines of a piece. */
  function EntryFromLines(lines: seq<string>): (r: Option<ExperienceEntry>)
    ensures r.Some? <==> |lines| > 0
    ensures r.Some? ==> (r.value.title == lines[0]
                         && r.value.description == Join(lines[1..], " ")
                         && r.value.dates == DatesOf(lines))
  {
    if |lines| == 0 then None
    else Some(ExperienceEntry(lines[0], if |lines| > 1 then Join(lines[1..], " ") else "", DatesOf(lines)))
  }

  /** The entry read off one piece, or None when the piece is skipped. */
  function EntryOf(piece: string): (r: Option<ExperienceEntry>)
    ensures r.Some? ==> |Strip(piece)| >= 20
  {
    if |Strip(piece)| < 20 then None else EntryFromLines(NonBlankStripped(Lines(piece)))
  }

  /** `[f(x) for x in s]` with the None results left out. */
  function FilterMap<T, U>(s: seq<T>, f: T -> Option<U>): (r: seq<U>)
    ensures |r| <= |s|
  {
    if |s| == 0 then []
    else
      var rest := FilterMap(s[1..], f);
      match f(s[0])
      case Some(e) => [e] + rest
      case None => rest
  }

  /** One more element at the end adds its result, if any, at the end. */
  lemma {:induction false} FilterMapSnoc<T, U>(s: seq<T>, x: T, f: T -> Option<U>)
    ensures FilterMap(s + [x], f) == FilterMap(s, f) + (if f(x).Some? then [f(x).value] else [])
    decreases |s|
  {
    if |s| > 0 {
      assert (s + [x])[1..] == s[1..] + [x];
      FilterMapSnoc(s[1..], x, f);
    } else {
      assert s + [x] == [x];
    }
  }

  /** The step of a loop that builds `FilterMap` one element at a time. */
  lemma FilterMapStep<T, U>(s: seq<T>, i: nat, f: T -> Option<U>, y: Option<U>)
    requires i < |s| && y == f(s[i])
    ensures FilterMap(s[..i + 1], f) == FilterMap(s[..i], f) + (if y.Some? then [y.value] else [])
  {
    assert s[..i + 1] == s[..i] + [s[i]];
    FilterMapSnoc(s[..i], s[i], f);
  }

  /** Each result comes from one of the elements. */
  lemma {:induction false} FilterMapMember<T, U>(s: seq<T>, f: T -> Option<U>, e: U)
    requires e in FilterMap(s, f)
    ensures exists i :: 0 <= i < |s| && f(s[i]) == Some(e)
    decreases |s|
  {
    if f(s[0]) != Some(e) {
      FilterMapMember(s[1..], f, e);
      var i :| 0 <= i < |s[1..]| && f(s[1..][i]) == Some(e);
      assert s[1..][i] == s[i + 1];
    }
  }

  /** The entries of the pieces, skipped ones left out, in order. */
  function Entries(pieces: seq<string>): seq<ExperienceEntry> {
    FilterMap(pieces, EntryOf)
  }

  /** `_extract_experience` */
  function ExperienceOf(text: string): seq<ExperienceEntry> {
    var section := SectionOf(text, ExperienceKeywords);
    if HasContent(section) then Entries(JobPieces(section.value)) else []
  }

  /** Every entry comes from a piece of at least 20 characters once
      stripped, and its title is a non-empty stripped line. */
  lemma ExperienceEntriesSpec(text: string, e: ExperienceEntry)
    requires e in ExperienceOf(text)
    ensures HasContent(SectionOf(text, ExperienceKeywords))
    ensures exists i :: 0 <= i < |JobPieces(SectionOf(text, ExperienceKeywords).value)|
              && var piece := JobPieces(SectionOf(text, ExperienceKeywords).value)[i];
                 |Strip(piece)| >= 20 && EntryOf(piece) == Some(e)
    ensures e.title != "" && Stripped(e.title)
  {
    var pieces := JobPieces(SectionOf(text, ExperienceKeywords).value);
    FilterMapMember(pieces, EntryOf, e);
    var i :| 0 <= i < |pieces| && EntryOf(pieces[i]) == Some(e);
    var lines := NonBlankStripped(Lines(pieces[i]));
    assert e.title == lines[0];
  }

  /** `_extract_experience` */
  method ExtractExperience(text: string) returns (experience: seq<ExperienceEntry>)
    ensures experience == ExperienceOf(text)
  {
    var section := FindSection(text, ExperienceKeywords);
    if section.None? || section.value == "" {
      return [];
    }
    experience := ReadEntries(JobPieces(section.value));
  }

  /** The loop over the pieces of the experience section. */
  method ReadEntries(pieces: seq<string>) returns (experience: seq<ExperienceEntry>)
    ensures experience == Entries(pieces)
  {
    experience := [];
    var i := 0;
    while i < |pieces|
      invariant 0 <= i <= |pieces|
      invariant experience == FilterMap(pieces[..i], EntryOf)
    {
      experience := AddPiece(pieces, i, experience);
      i := i + 1;
    }
    assert pieces[..i] == pieces;
  }

  /** One turn of that loop: the entry of piece `i`, if any, is appended. */
  method AddPiece(pieces: seq<string>, i: nat, experience: seq<ExperienceEntry>)
    returns (next: seq<ExperienceEntry>)
    requires i < |pieces| && experience == FilterMap(pieces[..i], EntryOf)
    ensures next == FilterMap(pieces[..i + 1], EntryOf)
  {
    var entry := ReadEntry(pieces[i]);
    FilterMapStep(pieces, i, EntryOf, entry);
    next := if entry.Some? then experience + [entry.value] else experience;
  }

  /** The body of the loop over the pieces. */
  method ReadEntry(piece: string) returns (entry: Option<ExperienceEntry>)
    ensures entry == EntryOf(piece)
  {
    if |Strip(piece)| < 20 {
      return None;
    }
    entry := ReadLines(NonBlankStripped(Lines(piece)));
  }

  /** The entry of the stripped lines, with the dates scan. */
  method ReadLines(lines: seq<string>) returns (entry: Option<ExperienceEntry>)
    ensures entry == EntryFromLines(lines)
  {
    if |lines| == 0 {
      return None;
    }
    var description := if |lines| > 1 then Join(lines[1..], " ") else "";
    var first := lines[..Min(3, |lines|)];
    var k := ScanFirst(first, HasYear);
    var dates := if k < |first| then Some(first[k]) else None;
    entry := Some(ExperienceEntry(lines[0], description, dates));
  }

  // ---------------------------------------------------------------------
  // _extract_education

  const EducationKeywords: seq<string> := ["education", "academic background"]
  const DegreeKeywords: seq<string> := ["bachelor", "master", "phd", "degree", "diploma"]

  /** A line names a degree when its lower-cased form contains one of the
      degree words. */
  predicate IsDegreeLine(line: string, degrees: seq<string>) {
    ContainsAny(Lower(line), degrees)
  }

  function DegreeLineOf(degrees: seq<string>): string -> bool {
    line => IsDegreeLine(line, degrees)
  }

  /** One entry per degree line, each with an empty description. */
  function DegreeEntries(lines: seq<string>): (r: seq<EducationEntry>)
    ensures |r| == |lines|
    ensures forall k :: 0 <= k < |r| ==> r[k].degree == lines[k] && r[k].description == ""
  {
    seq(|lines|, k requires 0 <= k < |lines| => EducationEntry(lines[k], ""))
  }

  /** The stripped non-blank lines of the section that name a degree. */
  function DegreeLines(section: string, degrees: seq<string>): seq<string> {
    Keep(NonBlankStripped(Lines(section)), DegreeLineOf(degrees))
  }

  /** `_extract_education` with the given degree words. */
  function EducationWith(text: string, degrees: seq<string>): seq<EducationEntry> {
    var section := SectionOf(text, EducationKeywords);
    if HasContent(section) then DegreeEntries(DegreeLines(section.value, degrees)) else []
  }

  function Education(text: string): seq<EducationEntry> {
    EducationWith(text, DegreeKeywords)
  }

  /** An entry is listed exactly when the education section has content,
      the entry's description is empty, and its degree is a non-blank
      stripped line of the section that names a degree. */
  lemma EducationSpec(text: string, degrees: seq<string>, e: EducationEntry)
    ensures e in EducationWith(text, degrees) <==>
              HasContent(SectionOf(text, EducationKeywords)) && e.description == ""
              && e.degree != "" && IsDegreeLine(e.degree, degrees)
              && exists i :: 0 <= i < |Lines(SectionOf(text, EducationKeywords).value)|
                   && Strip(Lines(SectionOf(text, EducationKeywords).value)[i]) == e.degree
  {
    var section := SectionOf(text, EducationKeywords);
    if HasContent(section) {
      var lines := NonBlankStripped(Lines(section.value));
      var kept := DegreeLines(section.value, degrees);
      var r := DegreeEntries(kept);
      KeepMember(lines, DegreeLineOf(degrees), e.degree);
      NonBlankStrippedMember(Lines(section.value), e.degree);
      if e in r {
        var k :| 0 <= k < |r| && r[k] == e;
        assert kept[k] == e.degree;
      }
      if e.description == "" && e.degree in kept {
        var k :| 0 <= k < |kept| && kept[k] == e.degree;
        assert r[k] == e;
      }
    }
  }

  /** `_extract_education`, loop by loop. */
  method ExtractEducation(text: string, degrees: seq<string>) returns (education: seq<EducationEntry>)
    ensures education == EducationWith(text, degrees)
  {
    var section := FindSection(text, EducationKeywords);
    if section.None? || section.value == "" {
      return [];
    }
    var lines := Select(StripAll(Lines(section.value)), NonBlank);
    var degreeLines := Select(lines, DegreeLineOf(degrees));
    education := MakeEntries(degreeLines);
  }

  /** The loop that appends one entry per degree line. */
  method MakeEntries(lines: seq<string>) returns (education: seq<EducationEntry>)
    ensures education == DegreeEntries(lines)
  {
    education := [];
    var i := 0;
    while i < |lines|
      invariant 0 <= i <= |lines|
      invariant |education| == i
      invariant forall k :: 0 <= k < i ==> education[k] == EducationEntry(lines[k], "")
    {
      education := education + [EducationEntry(lines[i], "")];
      i := i + 1;
    }
  }

  // ---------------------------------------------------------------------
  // _extract_certifications

  const CertificationKeywords: seq<string> := ["certification", "certificates", "licenses"]

  /** `_extract_certifications`: the stripped non-blank lines of the
      section, or none without one. */
  function Certifications(text: string): seq<string> {
    var section := SectionOf(text, CertificationKeywords);
    if HasContent(section) then NonBlankStripped(Lines(section.value)) else []
  }

  /** A certification is listed exactly when the section has content and
      some line of it strips to that non-blank string; each one is
      stripped. */
  lemma CertificationsSpec(text: string, c: string)
    ensures c in Certifications(text) <==>
              HasContent(SectionOf(text, CertificationKeywords)) && c != ""
              && exists i :: 0 <= i < |Lines(SectionOf(text, CertificationKeywords).value)|
                   && Strip(Lines(SectionOf(text, CertificationKeywords).value)[i]) == c
    ensures c in Certifications(text) ==> Stripped(c)
  {
    var section := SectionOf(text, CertificationKeywords);
    if HasContent(section) {
      NonBlankStrippedMember(Lines(section.value), c);
    }
  }

  method ExtractCertifications(text: string) returns (certifications: seq<string>)
    ensures certifications == Certifications(text)
  {
    var section := FindSection(text, CertificationKeywords);
    if section.None? || section.value == "" {
      return [];
    }
    certifications := Select(StripAll(Lines(section.value)), NonBlank);
  }

  // ---------------------------------------------------------------------
  // parse_resume

  /** The structured resume: `_extract_information` plus the raw text and
      the file path. The personal information is reduced to the name. */
  datatype ResumeData = ResumeData(
    name: Option<string>,
    summary: string,
    skills: seq<string>,
    experience: seq<ExperienceEntry>,
    education: seq<EducationEntry>,
    certifications: seq<string>,
    rawText: string,
    filePath: string)

  /** The part of the resume the matcher's prompts read. */
  function ToProfile(d: ResumeData): Profile {
    Profile(d.name, d.skills, d.experience)
  }

  datatype Format = Pdf | Docx

  datatype ParseError =
    | NotConfigured
    | FileNotFound(path: string)
    | UnsupportedFormat(suffix: string)

  /** `s.rfind(c)`: the last index of `c`, or -1. */
  function LastIndexOf(s: string, c: char): (i: int)
    ensures -1 <= i < |s|
    ensures i >= 0 ==> s[i] == c
    ensures forall j :: i < j < |s| ==> s[j] != c
  {
    if |s| == 0 then -1
    else if s[|s| - 1] == c then |s| - 1
    else LastIndexOf(s[..|s| - 1], c)
  }

  /** `Path(p).name`: the last component, trailing slashes ignored. */
  function BaseName(path: string): (name: string)
    ensures '/' !in name
  {
    var p := RStripChar(path, '/');
    var name := p[LastIndexOf(p, '/') + 1..];
    assert forall j :: 0 <= j < |name| ==> name[j] == p[LastIndexOf(p, '/') + 1 + j];
    name
  }

  /** `Path.suffix`: from the last dot of the name, unless that dot opens
      or ends the name. */
  function Suffix(name: string): string {
    var i := LastIndexOf(name, '.');
    if 0 < i < |name| - 1 then name[i..] else ""
  }

  /** A suffix is empty, or a dot and at least one more character with no
      other dot, ending the name and leaving a non-empty stem; it is empty
      exactly when the name has no dot past its first character and before
      its last. */
  lemma SuffixSpec(name: string)
    ensures Suffix(name) == "" || (|Suffix(name)| >= 2 && Suffix(name)[0] == '.'
                                  && '.' !in Suffix(name)[1..]
                                  && |Suffix(name)| < |name|
                                  && name[|name| - |Suffix(name)|..] == Suffix(name))
    ensures Suffix(name) == "" <==> LastIndexOf(name, '.') <= 0 || LastIndexOf(name, '.') == |name| - 1
  {
    var i := LastIndexOf(name, '.');
    if 0 < i < |name| - 1 {
      var x := name[i..];
      assert forall j :: 1 <= j < |x| ==> x[j] == name[i + j];
    }
  }

  /** The extractor chosen by the lower-cased suffix. */
  function FormatOf(suffix: string): (f: Option<Format>)
    ensures f == Some(Pdf) <==> Lower(suffix) == ".pdf"
    ensures f == Some(Docx) <==> Lower(suffix) == ".docx"
    ensures f.None? <==> Lower(suffix) != ".pdf" && Lower(suffix) != ".docx"
  {
    var s := Lower(suffix);
    if s == ".pdf" then Some(Pdf) else if s == ".docx" then Some(Docx) else None
  }

  /** The choice ignores case. */
  lemma FormatIgnoresCase(suffix: string)
    ensures FormatOf(Lower(suffix)) == FormatOf(suffix)
  {
    LowerIdempotent(suffix);
  }

  /** `_extract_information` with the text and path `parse_resume` adds:
      every structured field is extracted from the same text. */
  function Information(text: string, path: string): (d: ResumeData)
    ensures d.rawText == text && d.filePath == path
    ensures d.name.Some? ==> LooksLikeName(d.name.value)
    ensures StrictlyIncreasing(d.skills)
  {
    ResumeData(NameOf(text), Summary(text), Skills(text), ExperienceOf(text),
               Education(text), Certifications(text), text, path)
  }

  /** `parse_resume`: `filePath` is the configured path, `fileExists` the file
      system and `extract` the PDF or DOCX text extractor (its output
      already stripped). The missing path is checked first, then the
      missing file, then the suffix. */
  function ParseResume(filePath: Option<string>, fileExists: string -> bool,
                       extract: (Format, string) -> string): (r: Result<ResumeData, ParseError>)
    ensures r == Err(NotConfigured) <==> filePath.None? || filePath.value == ""
    ensures r.Err? && r.error.FileNotFound? ==> filePath.Some? && r.error.path == filePath.value
    ensures r.Ok? ==> filePath.Some? && fileExists(filePath.value)
                      && FormatOf(Suffix(BaseName(filePath.value))).Some?
                      && r.value.filePath == filePath.value
                      && r.value.rawText == extract(FormatOf(Suffix(BaseName(filePath.value))).value, filePath.value)
  {
    if filePath.None? || filePath.value == "" then Err(NotConfigured)
    else
      var path := filePath.value;
      if !fileExists(path) then Err(FileNotFound(path))
      else
        var suffix := Suffix(BaseName(path));
        match FormatOf(suffix)
        case None => Err(UnsupportedFormat(suffix))
        case Some(f) => Ok(Information(extract(f, path), path))
  }

  /** With a configured path to an existing file, the result is an error
      exactly when the suffix is neither `.pdf` nor `.docx` in any case,
      and the error then names the suffix. */
  lemma ParseResumeFormat(path: string, fileExists: string -> bool, extract: (Format, string) -> string)
    requires path != "" && fileExists(path)
    ensures ParseResume(Some(path), fileExists, extract).Err? <==>
              Lower(Suffix(BaseName(path))) != ".pdf" && Lower(Suffix(BaseName(path))) != ".docx"
    ensures ParseResume(Some(path), fileExists, extract).Err? ==>
              ParseResume(Some(path), fileExists, extract).error == UnsupportedFormat(Suffix(BaseName(path)))
  {
  }

  /** A parsed resume's skills are sorted without duplicates. */
  lemma ParsedSkillsSorted(filePath: Option<string>, fileExists: string -> bool,
                           extract: (Format, string) -> string)
    requires ParseResume(filePath, fileExists, extract).Ok?
    ensures StrictlyIncreasing(ParseResume(filePath, fileExists, extract).value.skills)
  {

  }
}
