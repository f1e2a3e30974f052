/** The application decisions of the job applicator (`src/job_applicator.py`):
    which matched jobs are attempted and how the results are counted, the
    Easy Apply step machine over what each step of the modal shows, the
    rules that fill text fields and experience dropdowns, and the summary
    of the matched jobs. The browser is abstracted: the outcome of one
    application, the buttons a step shows and the form elements are
    inputs. */
module Applicator {
  import opened Wrappers
  import opened Text
  import opened Lists
  import opened Records

  // ---------------------------------------------------------------------
  // apply_to_jobs

  datatype Results = Results(successful: nat, failed: nat, skipped: nat)

  /** What the run does, in order: an application attempt and its outcome,
      or a call of `time.sleep` with `delay_between_applications` seconds
      (which raises for a negative number of seconds). */
  datatype Event = Attempt(job: MatchedJob, success: bool) | Delay(seconds: int)

  /** `job.get('gemini_analysis', {}).get('recommended_application', False)` */
  predicate Recommends(m: MatchedJob) {
    IsRecommended(m.analysis)
  }

  predicate NotRecommends(m: MatchedJob) {
    !Recommends(m)
  }

  function Recommended(matched: seq<MatchedJob>): seq<MatchedJob> {
    Keep(matched, Recommends)
  }

  /** Turn `i` of the loop: the attempt, then the pause unless it was the
      last job. */
  function Turn(jobs: seq<MatchedJob>, i: nat, applyOne: MatchedJob -> bool, delay: int): seq<Event>
    requires i < |jobs|
  {
    [Attempt(jobs[i], applyOne(jobs[i]))] + (if i < |jobs| - 1 then [Delay(delay)] else [])
  }

  /** The events of the first `k` turns. */
  function ScheduleUpTo(jobs: seq<MatchedJob>, k: nat, applyOne: MatchedJob -> bool, delay: int): seq<Event>
    requires k <= |jobs|
  {
    if k == 0 then [] else ScheduleUpTo(jobs, k - 1, applyOne, delay) + Turn(jobs, k - 1, applyOne, delay)
  }

  function Schedule(jobs: seq<MatchedJob>, applyOne: MatchedJob -> bool, delay: int): seq<Event> {
    ScheduleUpTo(jobs, |jobs|, applyOne, delay)
  }

  /** The first `k` turns alternate attempt and pause: the attempt of job
      `i` at position `2i`, a pause right after it, and no pause after the
      last job's attempt. */
  lemma {:induction false} ScheduleUpToShape(jobs: seq<MatchedJob>, k: nat, applyOne: MatchedJob -> bool, delay: int)
    requires k <= |jobs|
    ensures |ScheduleUpTo(jobs, k, applyOne, delay)| == (if k == |jobs| && k > 0 then 2 * k - 1 else 2 * k)
    ensures forall i :: 0 <= i < k ==>
              ScheduleUpTo(jobs, k, applyOne, delay)[2 * i] == Attempt(jobs[i], applyOne(jobs[i]))
    ensures forall i :: 0 <= i < k && 2 * i + 1 < |ScheduleUpTo(jobs, k, applyOne, delay)| ==>
              ScheduleUpTo(jobs, k, applyOne, delay)[2 * i + 1] == Delay(delay)
  {
    if k > 0 {
      ScheduleUpToShape(jobs, k - 1, applyOne, delay);
      var before := ScheduleUpTo(jobs, k - 1, applyOne, delay);
      var turn := Turn(jobs, k - 1, applyOne, delay);
      assert ScheduleUpTo(jobs, k, applyOne, delay) == before + turn;
      assert |before| == 2 * (k - 1);
    }
  }

  /** The whole schedule: one attempt per job in order, a pause between any
      two consecutive attempts, and none after the last. */
  lemma ScheduleShape(jobs: seq<MatchedJob>, applyOne: MatchedJob -> bool, delay: int)
    ensures |Schedule(jobs, applyOne, delay)| == (if |jobs| == 0 then 0 else 2 * |jobs| - 1)
    ensures forall i :: 0 <= i < |jobs| ==>
              Schedule(jobs, applyOne, delay)[2 * i] == Attempt(jobs[i], applyOne(jobs[i]))
    ensures forall i :: 0 <= i < |jobs| - 1 ==> Schedule(jobs, applyOne, delay)[2 * i + 1] == Delay(delay)
    ensures Schedule(jobs, applyOne, delay) == []
            || Schedule(jobs, applyOne, delay)[|Schedule(jobs, applyOne, delay)| - 1].Attempt?
  {
    ScheduleUpToShape(jobs, |jobs|, applyOne, delay);
    if |jobs| > 0 {
      var s := Schedule(jobs, applyOne, delay);
      assert s[2 * (|jobs| - 1)].Attempt?;
    }
  }

  /** `time.sleep(delay)` raises for a negative delay. */
  predicate SleepRaises(delay: int) {
    delay < 0
  }

  /** The pauses among the first `k` of `n` turns that raise: every turn
      but the last pauses, and each pause raises when the delay is
      negative. The `except` of the loop then counts that job as failed a
      second time, after its outcome was already counted. */
  function RaisingPauses(n: nat, k: nat, delay: int): (r: nat)
    requires k <= n
    ensures !SleepRaises(delay) ==> r == 0
    ensures SleepRaises(delay) && n > 0 ==> r == Min(k, n - 1)
  {
    if !SleepRaises(delay) || k == 0 then 0 else if k < n then k else k - 1
  }

  /** `apply_to_jobs`: `autoApply` is the configured `auto_apply`, `delay`
      the configured pause and `applyOne` the outcome of
      `_apply_to_single_job`, which reports every failure as False. */
  method ApplyToJobs(matched: seq<MatchedJob>, autoApply: bool, delay: int, applyOne: MatchedJob -> bool)
    returns (results: Results, trace: seq<Event>)
    ensures !autoApply ==> results == Results(0, 0, |matched|) && trace == []
    ensures autoApply ==>
              results.successful == Count(Recommended(matched), applyOne)
              && results.successful + results.failed
                 == |Recommended(matched)| + RaisingPauses(|Recommended(matched)|, |Recommended(matched)|, delay)
              && results.skipped + |Recommended(matched)| == |matched|
              && trace == Schedule(Recommended(matched), applyOne, delay)
    ensures !SleepRaises(delay) ==> results.successful + results.failed + results.skipped == |matched|
  {
    if !autoApply {
      return Results(0, 0, |matched|), [];
    }
    var recommended := Select(matched, Recommends);
    var successful, failed;
    successful, failed, trace := ApplyEach(recommended, delay, applyOne);
    results := Results(successful, failed, |matched| - |recommended|);
  }

  /** The loop over the recommended jobs. Each job counts once as a success
      or a failure; a pause that raises counts its job as failed once more. */
  method ApplyEach(recommended: seq<MatchedJob>, delay: int, applyOne: MatchedJob -> bool)
    returns (successful: nat, failed: nat, trace: seq<Event>)
    ensures successful == Count(recommended, applyOne)
    ensures successful + failed == |recommended| + RaisingPauses(|recommended|, |recommended|, delay)
    ensures trace == Schedule(recommended, applyOne, delay)
  {
    successful, failed := 0, 0;
    trace := [];
    var i := 0;
    while i < |recommended|
      invariant 0 <= i <= |recommended|
      invariant trace == ScheduleUpTo(recommended, i, applyOne, delay)
      invariant successful == Count(recommended[..i], applyOne)
      invariant successful + failed == i + RaisingPauses(|recommended|, i, delay)
    {
      var success := applyOne(recommended[i]);
      CountStep(recommended, i, applyOne);
      if success {
        successful := successful + 1;
      } else {
        failed := failed + 1;
      }
      trace := trace + [Attempt(recommended[i], success)];
      if i < |recommended| - 1 {
        trace := trace + [Delay(delay)];
        if SleepRaises(delay) {
          failed := failed + 1;
        }
      }
      i := i + 1;
    }
    assert recommended[..i] == recommended;
  }

  lemma CountStep<T>(s: seq<T>, i: nat, p: T -> bool)
    requires i < |s|
    ensures Count(s[..i + 1], p) == Count(s[..i], p) + (if p(s[i]) then 1 else 0)
  {
    assert s[..i + 1] == s[..i] + [s[i]];
    KeepAppend(s[..i], [s[i]], p);
  }

  // ---------------------------------------------------------------------
  // _handle_easy_apply_flow

  const MaxSteps: nat := 5

  datatype Button = Submit | Review | Next

  datatype ButtonState = Absent | Disabled | Enabled

  /** What one step of the modal shows: the Submit button, the Review
      button and the Next/Continue button. */
  datatype StepView = StepView(submit: ButtonState, review: ButtonState, next: ButtonState)

  /** The button a step clicks: Submit first, then Review, then Next only
      when Review was not clicked. */
  function Click(v: StepView): Option<Button> {
    if v.submit == Enabled then Some(Submit)
    else if v.review == Enabled then Some(Review)
    else if v.next == Enabled then Some(Next)
    else None
  }

  /** The outcome and the clicks of the steps after the first `step`;
      `view(n)` is what step `n` (counted from 1) shows. */
  function Flow(view: nat -> StepView, step: nat): (bool, seq<Button>)
    decreases MaxSteps - step
  {
    if step >= MaxSteps then (false, [])
    else match Click(view(step + 1))
      case None => (false, [])
      case Some(Submit) => (true, [Submit])
      case Some(b) => var rest := Flow(view, step + 1); (rest.0, [b] + rest.1)
  }

  /** The flow clicks at most once per remaining step, each click being the
      one the step's buttons call for; it succeeds exactly when its last
      click is Submit, which is clicked nowhere else; and it fails only
      when the steps run out or a step offers no button to click. */
  lemma {:induction false} FlowSpec(view: nat -> StepView, step: nat)
    requires step <= MaxSteps
    ensures |Flow(view, step).1| <= MaxSteps - step
    ensures forall i :: 0 <= i < |Flow(view, step).1| ==> Click(view(step + i + 1)) == Some(Flow(view, step).1[i])
    ensures Flow(view, step).0 <==> Flow(view, step).1 != [] && Flow(view, step).1[|Flow(view, step).1| - 1] == Submit
    ensures forall i :: 0 <= i < |Flow(view, step).1| - 1 ==> Flow(view, step).1[i] != Submit
    ensures !Flow(view, step).0 ==>
              step + |Flow(view, step).1| == MaxSteps || Click(view(step + |Flow(view, step).1| + 1)).None?
    decreases MaxSteps - step
  {
    if step < MaxSteps {
      var c := Click(view(step + 1));
      if c.Some? && c.value != Submit {
        FlowSpec(view, step + 1);
        var rest := Flow(view, step + 1).1;
        assert Flow(view, step).1 == [c.value] + rest;
        forall i | 0 < i < |rest| + 1
          ensures Click(view(step + i + 1)) == Some(Flow(view, step).1[i])
        {
          assert Flow(view, step).1[i] == rest[i - 1];
        }
      }
    }
  }

  /** The `while step < max_steps` loop of `_handle_easy_apply_flow`; a
      submitted application counts as success with or without the
      confirmation heading. */
  method EasyApplyFlow(view: nat -> StepView) returns (ok: bool, clicks: seq<Button>)
    ensures (ok, clicks) == Flow(view, 0)
  {
    var step := 0;
    clicks := [];
    assert clicks + Flow(view, 0).1 == Flow(view, 0).1;
    while step < MaxSteps
      invariant 0 <= step <= MaxSteps
      invariant Flow(view, 0).0 == Flow(view, step).0
      invariant Flow(view, 0).1 == clicks + Flow(view, step).1
    {
      ghost var before := step;
      step := step + 1;
      var b := StepClick(view(step));
      if b == Some(Submit) {
        clicks := clicks + [Submit];
        return true, clicks;
      }
      if b.None? {
        break;
      }
      FlowAppend(view, before, clicks);
      clicks := clicks + [b.value];
    }
    assert clicks + [] == clicks;
    return false, clicks;
  }

  /** The rewrite the loop relies on after a Review or Next click. */
  lemma FlowAppend(view: nat -> StepView, step: nat, clicks: seq<Button>)
    requires step < MaxSteps
    requires Click(view(step + 1)).Some? && Click(view(step + 1)).value != Submit
    ensures Flow(view, step).0 == Flow(view, step + 1).0
    ensures clicks + Flow(view, step).1 == (clicks + [Click(view(step + 1)).value]) + Flow(view, step + 1).1
  {
  }

  /** One step's buttons: Submit is tried first, then Review, and Next only
      when Review was not clicked. */
  method StepClick(v: StepView) returns (b: Option<Button>)
    ensures b == Click(v)
  {
    if v.submit == Enabled {
      return Some(Submit);
    }
    var nextClicked := false;
    b := None;
    if v.review == Enabled {
      b := Some(Review);
      nextClicked := true;
    }
    if !nextClicked && v.next == Enabled {
      b := Some(Next);
      nextClicked := true;
    }
  }

  // ---------------------------------------------------------------------
  // _fill_application_fields

  /** A text input or textarea: its label, `name`, `id` and current value. */
  datatype Field = Field(labelText: string, name: string, id: string, value: string)

  const PhoneNumber: string := "+27 123 456 7890"

  /** `field_mappings`, in insertion order. */
  const FieldMappings: seq<(string, string)> := [
    ("phone", PhoneNumber),
    ("mobile", PhoneNumber),
    ("website", "https://linkedin.com/in/thabo-mofokeng"),
    ("portfolio", "https://github.com/thabomofokeng")
  ]

  /** The text the mapping keys are looked for in. */
  function Haystack(f: Field): string {
    Lower(f.labelText) + " " + Lower(f.name) + " " + Lower(f.id)
  }

  function KeyIn(haystack: string): ((string, string)) -> bool {
    (m: (string, string)) => Contains(haystack, Lower(m.0))
  }

  /** The value of the first mapping whose key occurs in the field's text. */
  function FillValue(f: Field, mappings: seq<(string, string)>): Option<string> {
    var k := FirstIndex(mappings, 0, KeyIn(Haystack(f)));
    if k < |mappings| then Some(mappings[k].1) else None
  }

  /** The field after the loop body: filled fields are skipped, a matched
      non-empty value replaces the (empty) value. */
  function Filled(f: Field, mappings: seq<(string, string)>): Field {
    if f.value != "" then f
    else match FillValue(f, mappings)
      case Some(v) => if v != "" then f.(value := v) else f
      case None => f
  }

  /** A field keeps its label, name and id; a field that already has a
      value, or whose text holds no key, is untouched; a changed field got
      the value of the first key found in its text. */
  lemma FilledSpec(f: Field, mappings: seq<(string, string)>)
    ensures Filled(f, mappings).labelText == f.labelText && Filled(f, mappings).name == f.name
            && Filled(f, mappings).id == f.id
    ensures f.value != "" ==> Filled(f, mappings) == f
    ensures (forall i :: 0 <= i < |mappings| ==> !Contains(Haystack(f), Lower(mappings[i].0)))
            ==> Filled(f, mappings) == f
    ensures Filled(f, mappings) != f ==>
              f.value == ""
              && exists i :: 0 <= i < |mappings| && Contains(Haystack(f), Lower(mappings[i].0))
                   && Filled(f, mappings).value == mappings[i].1 != ""
                   && forall j :: 0 <= j < i ==> !Contains(Haystack(f), Lower(mappings[j].0))
  {
    var k := FirstIndex(mappings, 0, KeyIn(Haystack(f)));
    if k < |mappings| {
      assert KeyIn(Haystack(f))(mappings[k]);
    } else if f.value == "" {
      assert FillValue(f, mappings).None?;
    }
  }

  /** The field loop, over the page's text fields in place. */
  method FillApplicationFields(fields: array<Field>, mappings: seq<(string, string)>)
    modifies fields
    ensures forall i :: 0 <= i < fields.Length ==> fields[i] == Filled(old(fields[i]), mappings)
  {
    var i := 0;
    while i < fields.Length
      invariant 0 <= i <= fields.Length
      invariant forall j :: 0 <= j < i ==> fields[j] == Filled(old(fields[j]), mappings)
      invariant forall j :: i <= j < fields.Length ==> fields[j] == old(fields[j])
    {
      var f := fields[i];
      if f.value == "" {
        var k := ScanFirst(mappings, KeyIn(Haystack(f)));
        if k < |mappings| && mappings[k].1 != "" {
          fields[i] := f.(value := mappings[k].1);
        }
      }
      i := i + 1;
    }
  }

  // ---------------------------------------------------------------------
  // _handle_dropdown_fields

  /** A `select` element: its label and the texts of its options. */
  datatype SelectField = SelectField(labelText: string, options: seq<string>)

  const DropdownLabelWords: seq<string> := ["experience", "years"]
  const PreferredOptions: seq<string> := ["senior", "5+", "3-5"]

  function OptionMatches(words: seq<string>): string -> bool {
    o => ContainsAny(Lower(o), words)
  }

  /** The index of the option clicked in a select, if any. */
  function ChosenOption(s: SelectField, labelWords: seq<string>, optionWords: seq<string>): Option<nat> {
    if !ContainsAny(Lower(s.labelText), labelWords) then None
    else
      var k := FirstIndex(s.options, 0, OptionMatches(optionWords));
      if k < |s.options| then Some(k) else None
  }

  /** Only selects whose label holds an experience word are touched, and
      there the first option holding a preferred word is clicked; nothing
      is clicked when no option holds one. */
  lemma ChosenOptionSpec(s: SelectField, labelWords: seq<string>, optionWords: seq<string>)
    ensures ChosenOption(s, labelWords, optionWords).Some? ==>
              var k := ChosenOption(s, labelWords, optionWords).value;
              ContainsAny(Lower(s.labelText), labelWords)
              && k < |s.options| && ContainsAny(Lower(s.options[k]), optionWords)
              && forall j :: 0 <= j < k ==> !ContainsAny(Lower(s.options[j]), optionWords)
    ensures ChosenOption(s, labelWords, optionWords).None? <==>
              !ContainsAny(Lower(s.labelText), labelWords)
              || forall j :: 0 <= j < |s.options| ==> !ContainsAny(Lower(s.options[j]), optionWords)
  {
    var k := FirstIndex(s.options, 0, OptionMatches(optionWords));
    if k < |s.options| {
      assert OptionMatches(optionWords)(s.options[k]);
    }
    if ContainsAny(Lower(s.labelText), labelWords) && k == |s.options| {
      assert forall j :: 0 <= j < |s.options| ==> !OptionMatches(optionWords)(s.options[j]);
    }
  }

  /** The dropdown loop: the option clicked in each select. */
  method HandleDropdownFields(selects: seq<SelectField>, labelWords: seq<string>, optionWords: seq<string>)
    returns (chosen: seq<Option<nat>>)
    ensures |chosen| == |selects|
    ensures forall i :: 0 <= i < |selects| ==> chosen[i] == ChosenOption(selects[i], labelWords, optionWords)
  {
    chosen := [];
    var i := 0;
    while i < |selects|
      invariant 0 <= i <= |selects|
      invariant |chosen| == i
      invariant forall j :: 0 <= j < i ==> chosen[j] == ChosenOption(selects[j], labelWords, optionWords)
    {
      var pick := ChooseOption(selects[i], labelWords, optionWords);
      chosen := chosen + [pick];
      i := i + 1;
    }
  }

  /** One select: scan its options only when its label holds a label word. */
  method ChooseOption(s: SelectField, labelWords: seq<string>, optionWords: seq<string>) returns (pick: Option<nat>)
    ensures pick == ChosenOption(s, labelWords, optionWords)
  {
    pick := None;
    if ContainsAny(Lower(s.labelText), labelWords) {
      var k := ScanFirst(s.options, OptionMatches(optionWords));
      if k < |s.options| {
        pick := Some(k);
      }
    }
  }

  // ---------------------------------------------------------------------
  // generate_application_summary

  const NoJobs: string := "No jobs to apply to."
  const TopCount: nat := 5

  function NotRecommended(matched: seq<MatchedJob>): seq<MatchedJob> {
    Keep(matched, NotRecommends)
  }

  /** `sorted(recommended, key=score, reverse=True)[:5]` */
  function TopJobs(matched: seq<MatchedJob>): seq<MatchedJob> {
    Top(Recommended(matched))
  }

  function Top(recommended: seq<MatchedJob>): seq<MatchedJob> {
    var sorted := SortDesc(recommended, MatchedScore);
    sorted[..Min(TopCount, |sorted|)]
  }

  /** The two groups split the matched jobs. */
  lemma SummaryPartition(matched: seq<MatchedJob>)
    ensures |Recommended(matched)| + |NotRecommended(matched)| == |matched|
    ensures multiset(Recommended(matched)) + multiset(NotRecommended(matched)) == multiset(matched)
  {
    KeepPartition(matched, Recommends, NotRecommends);
  }

  /** At most five jobs are listed, all recommended, by non-increasing
      score, and no recommended job left out scores higher than a listed
      one. */
  lemma TopJobsSpec(matched: seq<MatchedJob>)
    ensures |TopJobs(matched)| == Min(TopCount, |Recommended(matched)|)
    ensures forall i :: 0 <= i < |TopJobs(matched)| ==> Recommends(TopJobs(matched)[i])
    ensures SortedDesc(TopJobs(matched), MatchedScore)
    ensures multiset(TopJobs(matched)) <= multiset(Recommended(matched))
    ensures forall m, i :: (m in SortDesc(Recommended(matched), MatchedScore)[|TopJobs(matched)|..]
                            && 0 <= i < |TopJobs(matched)|) ==> MatchedScore(m) <= MatchedScore(TopJobs(matched)[i])
  {
    var rec := Recommended(matched);
    var sorted := SortDesc(rec, MatchedScore);
    var n := Min(TopCount, |sorted|);
    SortDescSorted(rec, MatchedScore);
    SortedDescSlice(sorted, MatchedScore, 0, n);
    assert sorted == sorted[..n] + sorted[n..];
    forall i | 0 <= i < n
      ensures Recommends(sorted[i])
    {
      assert sorted[i] in multiset(rec);
      KeepMember(matched, Recommends, sorted[i]);
    }
  }

  function Repeat(c: char, n: nat): (r: string)
    ensures |r| == n
  {
    seq(n, _ => c)
  }

  /** The header with the three counts. */
  function Header(total: nat, recommended: nat, notRecommended: nat): string {
    "\U{1F4CA} Application Summary\n" + Repeat('=', 50) + "\n"
    + "Total matched jobs: " + NatToString(total) + "\n\n"
    + "\U{2705} Recommended for application: " + NatToString(recommended) + "\n"
    + "\U{274C} Not recommended: " + NatToString(notRecommended) + "\n\n"
  }

  /** The lines of the `i`-th listed job. */
  function EntryText(i: nat, m: MatchedJob): string {
    NatToString(i) + ". " + Get(m.job, "title", "Unknown") + " at " + Get(m.job, "company", "Unknown") + "\n"
    + "   Score: " + IntToString(ScoreOr0(m.analysis)) + "/100\n"
    + "   Assessment: " + m.analysis.overallAssessment.GetOr("N/A") + "\n\n"
  }

  /** The first `n` listed jobs, numbered from 1. */
  function Listing(jobs: seq<MatchedJob>, n: nat): string
    requires n <= |jobs|
  {
    if n == 0 then "" else Listing(jobs, n - 1) + EntryText(n, jobs[n - 1])
  }

  const TopHeading: string := "\U{1F3AF} Top Recommendations:\n"

  /** `generate_application_summary` */
  function SummaryOf(matched: seq<MatchedJob>): string {
    if |matched| == 0 then NoJobs
    else
      Header(|matched|, |Recommended(matched)|, |NotRecommended(matched)|) + TopSection(Recommended(matched))
  }

  /** The "Top Recommendations" part, present when some job is recommended. */
  function TopSection(recommended: seq<MatchedJob>): string {
    if |recommended| > 0 then TopHeading + Repeat('-', 30) + "\n" + Listing(Top(recommended), |Top(recommended)|)
    else ""
  }

  /** The no-jobs message is given for the empty list and only for it. */
  lemma SummaryEmpty(matched: seq<MatchedJob>)
    ensures SummaryOf(matched) == NoJobs <==> |matched| == 0
  {
    if |matched| > 0 {
      assert SummaryOf(matched)[0] == '\U{1F4CA}';
      assert NoJobs[0] == 'N';
    }
  }

  /** The summary, with the listing appended in a loop. */
  method GenerateApplicationSummary(matched: seq<MatchedJob>) returns (summary: string)
    ensures summary == SummaryOf(matched)
  {
    if |matched| == 0 {
      return NoJobs;
    }
    var recommended := Select(matched, Recommends);
    var notRecommended := Select(matched, NotRecommends);
    var top := "";
    if |recommended| > 0 {
      var sorted := SortDesc(recommended, MatchedScore);
      var listing := ListJobs(sorted[..Min(TopCount, |sorted|)]);
      top := TopHeading + Repeat('-', 30) + "\n" + listing;
    }
    summary := Header(|matched|, |recommended|, |notRecommended|) + top;
  }

  /** The loop that lists the top jobs. */
  method ListJobs(top: seq<MatchedJob>) returns (text: string)
    ensures text == Listing(top, |top|)
  {
    text := "";
    var i := 0;
    while i < |top|
      invariant 0 <= i <= |top|
      invariant text == Listing(top, i)
    {
      text := text + EntryText(i + 1, top[i]);
      i := i + 1;
    }
  }
}
