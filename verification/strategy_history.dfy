/** The strategy history page: every weekly recommendation of the user, newest
    week first, each with the percentage of its steps marked completed. */
module StrategyHistory {
  import opened Common
  import opened Recommendations
  import Percent
  import ProgressChecklist

  /** One entry of the history list. */
  datatype StrategyItem = StrategyItem(
    id: string,
    title: string,
    weekNumber: int,
    steps: seq<string>,
    completionPercentage: nat)

  datatype History = History(strategies: seq<StrategyItem>, loading: bool)

  /** The page as first rendered: no strategies, spinner on. */
  const Initial: History := History([], true)

  /** `completedCount`: the number of progress rows whose flag is set. It is
      the multiplicity of `true` among the flags. */
  function CountCompleted(flags: seq<bool>): (n: nat)
    ensures n == multiset(flags)[true]
    ensures n <= |flags|
  {
    if flags == [] then 0
    else
      assert flags == [flags[0]] + flags[1..];
      (if flags[0] then 1 else 0) + CountCompleted(flags[1..])
  }

  /** The history entry of one strategy, given the `completed` flags of its
      progress rows. */
  function Summarize(s: Recommendation, flags: seq<bool>, parse: string -> seq<string>): (item: StrategyItem)
    ensures item.id == s.id && item.title == s.title && item.weekNumber == s.weekNumber
    ensures item.steps == NormalizeSteps(s.steps, parse)
    ensures item.completionPercentage == Percent.RoundedPercent(CountCompleted(flags), |item.steps|)
    ensures item.steps == [] ==> item.completionPercentage == 0
    ensures CountCompleted(flags) <= |item.steps| ==> item.completionPercentage <= 100
  {
    var steps := NormalizeSteps(s.steps, parse);
    var count := CountCompleted(flags);
    assert count <= |steps| ==> Percent.RoundedPercent(count, |steps|) <= 100 by {
      if count <= |steps| {
        Percent.PercentInRange(count, |steps|);
      }
    }
    StrategyItem(s.id, s.title, s.weekNumber, steps, Percent.RoundedPercent(count, |steps|))
  }

  /** Every per-strategy progress query of `rows` succeeds. */
  predicate AllProgressOk(rows: seq<Recommendation>, progressOf: string -> Reply<seq<bool>>) {
    forall k :: 0 <= k < |rows| ==> progressOf(rows[k].id).Ok?
  }

  /** The `Promise.all` over the fetched strategies: `None` as soon as one
      progress query fails, otherwise one entry per strategy, position for
      position. */
  function SummarizeAll(rows: seq<Recommendation>, progressOf: string -> Reply<seq<bool>>,
                        parse: string -> seq<string>): (r: Option<seq<StrategyItem>>)
    ensures r.Some? <==> AllProgressOk(rows, progressOf)
    ensures r.Some? ==> |r.value| == |rows|
    ensures r.Some? ==> forall k :: 0 <= k < |rows| ==>
              && r.value[k].id == rows[k].id
              && r.value[k].title == rows[k].title
              && r.value[k].weekNumber == rows[k].weekNumber
              && r.value[k].steps == NormalizeSteps(rows[k].steps, parse)
              && r.value[k].completionPercentage
                 == Percent.RoundedPercent(CountCompleted(progressOf(rows[k].id).value), |r.value[k].steps|)
  {
    if rows == [] then Some([])
    else
      match progressOf(rows[0].id)
      case Fail(_) => None
      case Ok(flags) =>
        match SummarizeAll(rows[1..], progressOf, parse)
        case None => None
        case Some(items) => Some([Summarize(rows[0], flags, parse)] + items)
  }

  /** `loadStrategies`: nothing happens without a user; the spinner stops on
      every other path; the list is replaced only when the strategies arrive,
      there is at least one, and every progress query succeeds. */
  function LoadStrategies(h: History, user: Option<string>, fetched: Reply<seq<Recommendation>>,
                          progressOf: string -> Reply<seq<bool>>, parse: string -> seq<string>): (r: History)
    ensures user.None? ==> r == h
    ensures user.Some? ==> !r.loading
    ensures (user.Some? && (fetched.Fail? || fetched.value == [] || !AllProgressOk(fetched.value, progressOf)))
              ==> r.strategies == h.strategies
    ensures user.Some? && fetched.Ok? && fetched.value != [] && AllProgressOk(fetched.value, progressOf) ==>
              && |r.strategies| == |fetched.value|
              && forall k :: 0 <= k < |fetched.value| ==>
                   && r.strategies[k].id == fetched.value[k].id
                   && r.strategies[k].title == fetched.value[k].title
                   && r.strategies[k].weekNumber == fetched.value[k].weekNumber
    ensures user.Some? && fetched.Ok? && fetched.value != [] && AllProgressOk(fetched.value, progressOf) ==>
              r.strategies == SummarizeAll(fetched.value, progressOf, parse).value
  {
    if user.None? then h
    else
      match fetched
      case Fail(_) => h.(loading := false)
      case Ok(rows) =>
        if rows == [] then h.(loading := false)
        else
          match SummarizeAll(rows, progressOf, parse)
          case None => h.(loading := false)
          case Some(items) => History(items, false)
  }

  /** Newest week first, as the backend query orders the strategies. */
  predicate WeeksDescending(weeks: seq<int>) {
    forall a, b :: 0 <= a < b < |weeks| ==> weeks[a] >= weeks[b]
  }

  function RowWeeks(rows: seq<Recommendation>): seq<int> {
    seq(|rows|, k requires 0 <= k < |rows| => rows[k].weekNumber)
  }

  function ItemWeeks(items: seq<StrategyItem>): seq<int> {
    seq(|items|, k requires 0 <= k < |items| => items[k].weekNumber)
  }

  /** The page keeps the backend's newest-first order. */
  lemma LoadKeepsWeekOrder(h: History, u: string, rows: seq<Recommendation>,
                           progressOf: string -> Reply<seq<bool>>, parse: string -> seq<string>)
    requires WeeksDescending(RowWeeks(rows))
    requires rows != [] && AllProgressOk(rows, progressOf)
    ensures WeeksDescending(ItemWeeks(LoadStrategies(h, Some(u), Ok(rows), progressOf, parse).strategies))
  {
    var items := LoadStrategies(h, Some(u), Ok(rows), progressOf, parse).strategies;
    assert forall k :: 0 <= k < |items| ==> ItemWeeks(items)[k] == RowWeeks(rows)[k];
  }

  // ---------------------------------------------------------------------------
  // Agreement with the checklist's own count

  /** The `completed` column of a bulk progress read. */
  function Flags(rows: seq<ProgressChecklist.Row>): (flags: seq<bool>)
    ensures |flags| == |rows|
    ensures forall k :: 0 <= k < |rows| ==> flags[k] == rows[k].completed
  {
    seq(|rows|, k requires 0 <= k < |rows| => rows[k].completed)
  }

  /** No two rows are for the same step. */
  predicate DistinctSteps(rows: seq<ProgressChecklist.Row>) {
    forall a, b :: 0 <= a < b < |rows| ==> rows[a].stepIndex != rows[b].stepIndex
  }

  /** With at most one row per step, the history page's count of completed
      rows equals the count the checklist derives from the same rows, so both
      pages show the same percentage for a recommendation. */
  lemma {:induction false} CountsAgree(rows: seq<ProgressChecklist.Row>)
    requires DistinctSteps(rows)
    ensures CountCompleted(Flags(rows)) == ProgressChecklist.CompletedCount(ProgressChecklist.Load(rows))
  {
    if rows != [] {
      var init := rows[..|rows| - 1];
      var last := rows[|rows| - 1];
      assert DistinctSteps(init);
      CountsAgree(init);
      CountSnoc(rows);
      var prev := ProgressChecklist.Load(init);
      assert !ProgressChecklist.Mentions(init, last.stepIndex) by {
        forall j | 0 <= j < |init|
          ensures init[j].stepIndex != last.stepIndex
        {
          assert init[j] == rows[j];
        }
      }
      ProgressChecklist.CountAfterSet(prev, last.stepIndex, last.completed);
    }
  }

  /** Counting the flags of all rows but the last, then the last one. */
  lemma CountSnoc(rows: seq<ProgressChecklist.Row>)
    requires rows != []
    ensures CountCompleted(Flags(rows))
            == CountCompleted(Flags(rows[..|rows| - 1])) + (if rows[|rows| - 1].completed then 1 else 0)
  {
    var init := rows[..|rows| - 1];
    assert Flags(rows) == Flags(init) + [rows[|rows| - 1].completed];
    assert multiset(Flags(rows)) == multiset(Flags(init)) + multiset{rows[|rows| - 1].completed};
  }

  lemma PercentagesAgree(rows: seq<ProgressChecklist.Row>, steps: seq<string>)
    requires DistinctSteps(rows)
    ensures Percent.RoundedPercent(CountCompleted(Flags(rows)), |steps|)
            == ProgressChecklist.Summarize(ProgressChecklist.Load(rows), steps).percentage
  {
    CountsAgree(rows);
  }
}
