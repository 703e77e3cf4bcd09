/** The "This Week's Focus" page: it fetches the user's weekly recommendation,
    normalises its step list, numbers the steps, and mounts the progress
    checklist for it when the list is not empty. */
module WeeklyStrategy {
  import opened Common
  import opened Recommendations
  import StrategyHistory

  datatype Weekly = Weekly(recommendation: Option<Recommendation>, loading: bool)

  /** The page as first rendered: nothing fetched, spinner on. */
  const Initial: Weekly := Weekly(None, true)

  /** What a `.maybeSingle()` query hands back for the rows matching it: no
      row, the one row, or an error when more than one row matches (the error
      is only logged by this page, so its wording is not modelled). */
  function MaybeSingle<T>(rows: seq<T>): (r: Reply<Option<T>>)
    ensures r.Ok? <==> |rows| <= 1
    ensures |rows| == 0 ==> r == Ok(None)
    ensures |rows| == 1 ==> r == Ok(Some(rows[0]))
  {
    if |rows| == 0 then Ok(None)
    else if |rows| == 1 then Ok(Some(rows[0]))
    else Fail(None)
  }

  /** `loadRecommendation` as written: every recommendation of the user goes
      through `.maybeSingle()`. Without a user nothing happens; otherwise the
      spinner stops, and the recommendation is replaced only when the query
      and the single-row reduction succeed. */
  function LoadRecommendation(w: Weekly, user: Option<string>, query: Reply<seq<Recommendation>>): (r: Weekly)
    ensures user.None? ==> r == w
    ensures user.Some? ==> !r.loading
    ensures user.Some? && query.Fail? ==> r.recommendation == w.recommendation
    ensures user.Some? && query.Ok? && |query.value| <= 1 ==>
              (r.recommendation.Some? <==> |query.value| == 1)
              && (r.recommendation.Some? ==> r.recommendation.value == query.value[0])
    ensures user.Some? && query.Ok? && |query.value| > 1 ==> r.recommendation == w.recommendation
  {
    if user.None? then w
    else
      match query
      case Fail(_) => w.(loading := false)
      case Ok(rows) =>
        match MaybeSingle(rows)
        case Ok(found) => Weekly(found, false)
        case Fail(_) => w.(loading := false)
  }

  /** The recommendation with the highest week number, the first such one on
      a tie. */
  function Latest(rows: seq<Recommendation>): (r: Recommendation)
    requires rows != []
    ensures r in rows
    ensures forall k :: 0 <= k < |rows| ==> rows[k].weekNumber <= r.weekNumber
    ensures exists k :: 0 <= k < |rows| && rows[k] == r
                          && forall j :: 0 <= j < k ==> rows[j].weekNumber < r.weekNumber
  {
    if |rows| == 1 then rows[0]
    else
      var rest := Latest(rows[1..]);
      if rows[0].weekNumber >= rest.weekNumber then rows[0] else rest
  }

  /** `loadRecommendation` as evidently intended: the newest week's
      recommendation, and no error merely because earlier weeks exist. */
  function LoadLatestRecommendation(w: Weekly, user: Option<string>, query: Reply<seq<Recommendation>>): (r: Weekly)
    ensures user.None? ==> r == w
    ensures user.Some? ==> !r.loading
    ensures user.Some? && query.Fail? ==> r.recommendation == w.recommendation
    ensures user.Some? && query.Ok? ==> (r.recommendation.Some? <==> query.value != [])
    ensures user.Some? && query.Ok? && r.recommendation.Some? ==>
              && r.recommendation.value in query.value
              && forall k :: 0 <= k < |query.value| ==>
                   query.value[k].weekNumber <= r.recommendation.value.weekNumber
  {
    if user.None? then w
    else
      match query
      case Fail(_) => w.(loading := false)
      case Ok(rows) => Weekly(if rows == [] then None else Some(Latest(rows)), false)
  }

  /** Where the user has at most one recommendation the two loads agree. */
  lemma LoadsAgreeOnOneWeek(w: Weekly, user: Option<string>, rows: seq<Recommendation>)
    requires |rows| <= 1
    ensures LoadRecommendation(w, user, Ok(rows)) == LoadLatestRecommendation(w, user, Ok(rows))
  {
  }

  // ---------------------------------------------------------------------------
  // Rendering

  /** A step as listed on the page, with its one-based number. */
  datatype NumberedStep = NumberedStep(number: nat, text: string)

  /** The properties the page hands to the progress checklist. */
  datatype ChecklistProps = ChecklistProps(recommendationId: string, steps: seq<string>)

  datatype Page =
    | Spinner
    | EmptyState
    | Focus(title: string, stepSection: Option<seq<NumberedStep>>, showTemplates: bool,
            checklist: Option<ChecklistProps>)

  function Numbered(steps: seq<string>): seq<NumberedStep> {
    seq(|steps|, k requires 0 <= k < |steps| => NumberedStep(k + 1, steps[k]))
  }

  /** What the page shows. The step section and the checklist appear exactly
      when the normalised list is non-empty; step k is labelled k + 1; the
      checklist receives the recommendation's id and the normalised list. */
  function Render(w: Weekly, parse: string -> seq<string>): (p: Page)
    ensures w.loading ==> p == Spinner
    ensures !w.loading && w.recommendation.None? ==> p == EmptyState
    ensures !w.loading && w.recommendation.Some? ==>
              var rec := w.recommendation.value;
              var steps := NormalizeSteps(rec.steps, parse);
              && p.Focus?
              && p.title == rec.title
              && (p.stepSection.Some? <==> |steps| > 0)
              && (p.stepSection.Some? ==>
                    && |p.stepSection.value| == |steps|
                    && forall k :: 0 <= k < |steps| ==> p.stepSection.value[k] == NumberedStep(k + 1, steps[k]))
              && (p.checklist.Some? <==> |steps| > 0)
              && (p.checklist.Some? ==> p.checklist.value == ChecklistProps(rec.id, steps))
              && (p.showTemplates <==> rec.copyTemplates != "")
  {
    if w.loading then Spinner
    else
      match w.recommendation
      case None => EmptyState
      case Some(rec) =>
        var steps := NormalizeSteps(rec.steps, parse);
        Focus(rec.title,
              if |steps| > 0 then Some(Numbered(steps)) else None,
              rec.copyTemplates != "",
              if |steps| > 0 then Some(ChecklistProps(rec.id, steps)) else None)
  }

  /** The weekly page and the history page normalise a recommendation's
      steps alike: the list the checklist receives is the list the history
      entry stores, whatever the progress rows. It holds by construction,
      because both pages go through `NormalizeSteps`; it records that their
      two normalisation snippets are the same, and is not a partner property
      of `NormalizeSteps` itself. */
  lemma StepsAgreeAcrossPages(rec: Recommendation, flags: seq<bool>, parse: string -> seq<string>)
    ensures var p := Render(Weekly(Some(rec), false), parse);
            var item := StrategyHistory.Summarize(rec, flags, parse);
            && p.Focus?
            && (p.checklist.Some? <==> item.steps != [])
            && (p.checklist.Some? ==> p.checklist.value.steps == item.steps)
  {
  }

  /** As written, a user with two or more weekly recommendations sees the
      empty state after the first load: `.maybeSingle()` fails on the extra
      rows and the error is only logged. */
  lemma SecondWeekHidesFocus(u: string, rows: seq<Recommendation>, parse: string -> seq<string>)
    requires |rows| >= 2
    ensures Render(LoadRecommendation(Initial, Some(u), Ok(rows)), parse) == EmptyState
  {
  }

  /** With the intended load, any user with at least one recommendation sees
      the newest week's recommendation. */
  lemma LatestWeekShown(u: string, rows: seq<Recommendation>, parse: string -> seq<string>)
    requires rows != []
    ensures var p := Render(LoadLatestRecommendation(Initial, Some(u), Ok(rows)), parse);
            && p.Focus?
            && exists k :: 0 <= k < |rows| && p.title == rows[k].title
                 && forall j :: 0 <= j < |rows| ==> rows[j].weekNumber <= rows[k].weekNumber
  {
  }
}
