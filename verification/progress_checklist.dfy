/** The progress checklist of one weekly recommendation: a map from step index
    to "completed", loaded from the backend's progress_tracking table, toggled
    optimistically, reconciled with the table by an existence check followed by
    an update or an insert, and rolled back to the pre-toggle snapshot when any
    of those requests fails. */
module ProgressChecklist {
  import opened Common
  import Percent

  /** The in-memory progress: step index to completed. An absent key reads as
      "not completed". */
  type StepMap = map<int, bool>

  /** The natural key of a progress_tracking record:
      (user id, recommendation id, step index). */
  type StoreKey = (string, string, int)

  /** The progress_tracking table, at most one record per natural key, keeping
      only its `completed` column. */
  type Store = map<StoreKey, bool>

  /** One row of the bulk progress read. */
  datatype Row = Row(stepIndex: int, completed: bool)

  datatype Checklist = Checklist(progress: StepMap, loading: bool)

  /** A freshly mounted checklist: nothing loaded, the loading notice shown. */
  const Initial: Checklist := Checklist(map[], true)

  /** What the checklist shows for step `i`; an absent key counts as false. */
  predicate Current(m: StepMap, i: int) {
    i in m && m[i]
  }

  /** What the table holds for a key; no record counts as false. */
  predicate Stored(store: Store, key: StoreKey) {
    key in store && store[key]
  }

  // ---------------------------------------------------------------------------
  // Loading

  /** Row `j` is the last row for its step index. */
  predicate LastFor(rows: seq<Row>, j: int)
    requires 0 <= j < |rows|
  {
    forall j' :: j < j' < |rows| ==> rows[j'].stepIndex != rows[j].stepIndex
  }

  /** Some returned row is for step `k`. */
  predicate Mentions(rows: seq<Row>, k: int) {
    exists j :: 0 <= j < |rows| && rows[j].stepIndex == k
  }

  /** Folds the returned rows into a fresh map in order, so that a later row
      for the same step overwrites an earlier one. The keys are exactly the
      returned step indices and each holds the flag of its last row. */
  function Load(rows: seq<Row>): (m: StepMap)
    ensures forall k :: k in m ==> Mentions(rows, k)
    ensures forall j :: 0 <= j < |rows| ==> rows[j].stepIndex in m
    ensures forall j :: 0 <= j < |rows| && LastFor(rows, j) ==> m[rows[j].stepIndex] == rows[j].completed
    decreases |rows|
  {
    if rows == [] then map[]
    else
      var init := rows[..|rows| - 1];
      var last := rows[|rows| - 1];
      RowsSnoc(rows);
      Load(init)[last.stepIndex := last.completed]
  }

  /** How the facts about `rows` follow from those about all rows but the
      last one and the last row itself. */
  lemma RowsSnoc(rows: seq<Row>)
    requires rows != []
    ensures var init := rows[..|rows| - 1];
            && (forall j :: 0 <= j < |init| ==> init[j] == rows[j])
            && (forall k :: Mentions(rows, k) <==> Mentions(init, k) || k == rows[|rows| - 1].stepIndex)
            && (forall j :: 0 <= j < |init| && LastFor(rows, j) ==>
                  LastFor(init, j) && rows[j].stepIndex != rows[|rows| - 1].stepIndex)
  {
  }

  /** The mount effect followed by the bulk read. Nothing happens without a
      signed-in user or with an empty recommendation id; otherwise the loading
      notice ends, and the map is replaced by the loaded rows on success and
      kept as it was on a failed read. */
  function LoadProgress(c: Checklist, user: Option<string>, recommendationId: string,
                        reply: Reply<seq<Row>>): (r: Checklist)
    ensures user.None? || recommendationId == "" ==> r == c
    ensures user.Some? && recommendationId != "" ==> !r.loading
    ensures user.Some? && recommendationId != "" && reply.Fail? ==> r.progress == c.progress
    ensures user.Some? && recommendationId != "" && reply.Ok? ==> r.progress == Load(reply.value)
  {
    if user.None? || recommendationId == "" then c
    else
      match reply
      case Ok(rows) => Checklist(Load(rows), false)
      case Fail(_) => c.(loading := false)
  }

  /** A step with no returned row reads as not completed after loading. */
  lemma UnloadedStepIsIncomplete(rows: seq<Row>, i: int)
    requires !Mentions(rows, i)
    ensures !Current(Load(rows), i)
  {
  }

  // ---------------------------------------------------------------------------
  // Toggling: optimistic apply, reconciliation, settlement

  /** The toggle in flight: which step, its value before and after, and the
      map as it was when the toggle started (the rollback snapshot). */
  datatype Pending = Pending(step: int, previous: bool, next: bool, snapshot: StepMap)

  /** Phase one: flip step `i` in a copy of the map and remember the snapshot. */
  function Apply(m: StepMap, i: int): (r: (StepMap, Pending))
    ensures Current(r.0, i) == !Current(m, i)
    ensures i in r.0
    ensures forall k :: k != i ==> (k in r.0 <==> k in m)
    ensures forall k :: k != i && k in m ==> r.0[k] == m[k]
    ensures r.1.step == i && r.1.snapshot == m
    ensures r.1.previous == Current(m, i) && r.1.next == !r.1.previous
  {
    var previous := Current(m, i);
    (m[i := !previous], Pending(i, previous, !previous, m))
  }

  /** Phase two: on success the map on screen stays as it is; on failure it
      becomes the snapshot with the step set back to its previous value, so
      every step shows what it showed before the toggle. */
  function Settle(view: StepMap, p: Pending, ok: bool): (r: StepMap)
    ensures ok ==> r == view
    ensures !ok ==> forall k :: Current(r, k) == if k == p.step then p.previous else Current(p.snapshot, k)
    ensures !ok ==> r.Keys == p.snapshot.Keys + {p.step}
  {
    if ok then view else p.snapshot[p.step := p.previous]
  }

  /** Which write the reconciliation performed. */
  datatype Write = Updated | Inserted

  /** Which of the backend requests of one toggle fail: the existence check,
      or the update / insert that follows it. */
  datatype Faults = Faults(checkFails: bool, writeFails: bool)

  const NoFaults: Faults := Faults(false, false)

  datatype Sync = Synced(store: Store, write: Write) | SyncFailed

  /** The existence check on (user, recommendation, step), then an update of
      the existing record or an insert of a new one. A failed request leaves
      the table as it was. On success the key holds `completed` and no other
      key changes. */
  function Reconcile(store: Store, key: StoreKey, completed: bool, faults: Faults): (r: Sync)
    ensures r.Synced? <==> !faults.checkFails && !faults.writeFails
    ensures r.Synced? ==> (r.write == Updated <==> key in store)
    ensures r.Synced? ==> key in r.store && r.store[key] == completed
    ensures r.Synced? ==> forall k :: k != key ==> (k in r.store <==> k in store)
    ensures r.Synced? ==> forall k :: k != key && k in store ==> r.store[k] == store[k]
  {
    if faults.checkFails then SyncFailed
    else if key in store then
      if faults.writeFails then SyncFailed else Synced(store[key := completed], Updated)
    else
      if faults.writeFails then SyncFailed else Synced(store[key := completed], Inserted)
  }

  datatype Toggled = Toggled(progress: StepMap, store: Store)

  /** A whole toggle of step `i`, settling before the next one starts. */
  function ToggleStep(user: Option<string>, recommendationId: string, m: StepMap, store: Store,
                      i: int, faults: Faults): (r: Toggled)
    ensures user.None? ==> r == Toggled(m, store)
    ensures user.Some? && faults == NoFaults ==>
              && Current(r.progress, i) == !Current(m, i)
              && Stored(r.store, (user.value, recommendationId, i)) == !Current(m, i)
              && (forall k :: k != i ==> Current(r.progress, k) == Current(m, k))
              && (forall k :: k != (user.value, recommendationId, i) ==> (k in r.store <==> k in store))
              && (forall k :: k != (user.value, recommendationId, i) && k in store ==> r.store[k] == store[k])
    ensures user.Some? && faults != NoFaults ==>
              && r.store == store
              && (forall k :: Current(r.progress, k) == Current(m, k))
  {
    match user
    case None => Toggled(m, store)
    case Some(u) =>
      var (view, p) := Apply(m, i);
      match Reconcile(store, (u, recommendationId, i), p.next, faults)
      case Synced(store', _) => Toggled(Settle(view, p, true), store')
      case SyncFailed => Toggled(Settle(view, p, false), store)
  }

  /** Two successful toggles of the same step show its original value again,
      leave every other step alone, and leave the record holding that value. */
  lemma ToggleTwiceRestores(u: string, rec: string, m: StepMap, store: Store, i: int)
    ensures var t1 := ToggleStep(Some(u), rec, m, store, i, NoFaults);
            var t2 := ToggleStep(Some(u), rec, t1.progress, t1.store, i, NoFaults);
            && (forall k :: Current(t2.progress, k) == Current(m, k))
            && Stored(t2.store, (u, rec, i)) == Current(m, i)
  {
  }

  /** The map and the table agree on every step of (user, recommendation). */
  ghost predicate InSync(m: StepMap, store: Store, u: string, rec: string) {
    forall k :: Current(m, k) == Stored(store, (u, rec, k))
  }

  /** Loading from a table whose records for (user, recommendation) are
      exactly the returned rows starts the map in agreement with the table. */
  lemma LoadInSync(u: string, rec: string, store: Store, rows: seq<Row>)
    requires forall j :: 0 <= j < |rows| ==> Stored(store, (u, rec, rows[j].stepIndex)) == rows[j].completed
    requires forall k :: Stored(store, (u, rec, k)) ==> Mentions(rows, k)
    ensures InSync(Load(rows), store, u, rec)
  {
    var m := Load(rows);
    forall k
      ensures Current(m, k) == Stored(store, (u, rec, k))
    {
      if Mentions(rows, k) {
        var j := LastMention(rows, k);
      }
    }
  }

  /** A step some row mentions has a last row. */
  lemma {:induction false} LastMention(rows: seq<Row>, k: int) returns (j: int)
    requires Mentions(rows, k)
    ensures 0 <= j < |rows| && rows[j].stepIndex == k && LastFor(rows, j)
    decreases |rows|
  {
    var n := |rows| - 1;
    if rows[n].stepIndex == k {
      j := n;
    } else {
      var init := rows[..n];
      var w :| 0 <= w < |rows| && rows[w].stepIndex == k;
      assert w < n && init[w] == rows[w];
      j := LastMention(init, k);
      assert init[j] == rows[j];
      forall j' | j < j' < |rows|
        ensures rows[j'].stepIndex != rows[j].stepIndex
      {
        if j' < n {
          assert init[j'] == rows[j'];
        }
      }
    }
  }

  /** A settled toggle, successful or rolled back, keeps the map equal to the
      table for every step: the consistency the checklist is built for. */
  lemma ToggleKeepsInSync(u: string, rec: string, m: StepMap, store: Store, i: int, faults: Faults)
    requires InSync(m, store, u, rec)
    ensures var t := ToggleStep(Some(u), rec, m, store, i, faults);
            InSync(t.progress, t.store, u, rec)
  {
  }

  /** All keys of the map are step positions of a list of `n` steps. */
  predicate KeysBelow(m: StepMap, n: nat) {
    forall k :: k in m ==> 0 <= k < n
  }

  /** Toggling a step that is on the list keeps every key on the list. */
  lemma ToggleKeepsKeysBelow(user: Option<string>, rec: string, m: StepMap, store: Store,
                             i: int, faults: Faults, n: nat)
    requires KeysBelow(m, n) && 0 <= i < n
    ensures KeysBelow(ToggleStep(user, rec, m, store, i, faults).progress, n)
  {
  }

  // ---------------------------------------------------------------------------
  // Summary

  /** The steps whose value in the map is true. */
  function TrueKeys(m: StepMap): set<int> {
    set k | k in m && m[k]
  }

  /** `completedCount`: how many values of the map are true. */
  function CompletedCount(m: StepMap): (n: nat)
    ensures n <= |m|
    ensures n == 0 <==> forall k :: k in m ==> !m[k]
  {
    assert TrueKeys(m) <= m.Keys;
    SubsetCard(TrueKeys(m), m.Keys);
    assert (exists k :: k in m && m[k]) ==> TrueKeys(m) != {} by {
      if exists k :: k in m && m[k] {
        var k :| k in m && m[k];
        assert k in TrueKeys(m);
      }
    }
    |TrueKeys(m)|
  }

  /** A subset is no larger than the set containing it. */
  lemma SubsetCard<T>(a: set<T>, b: set<T>)
    requires a <= b
    ensures |a| <= |b|
  {
    assert b == a + (b - a);
  }

  /** What the rendered list shows: the number of the first `n` steps whose
      check mark is on. */
  function CheckedSteps(m: StepMap, n: nat): (c: nat)
    ensures c <= n
    ensures c == n <==> forall k :: 0 <= k < n ==> Current(m, k)
    ensures c == 0 <==> forall k :: 0 <= k < n ==> !Current(m, k)
  {
    if n == 0 then 0 else CheckedSteps(m, n - 1) + (if Current(m, n - 1) then 1 else 0)
  }

  function TrueKeysBelow(m: StepMap, n: nat): set<int> {
    set k | k in m && m[k] && 0 <= k < n
  }

  lemma {:induction false} TrueKeysBelowCount(m: StepMap, n: nat)
    ensures |TrueKeysBelow(m, n)| == CheckedSteps(m, n)
  {
    if n > 0 {
      TrueKeysBelowCount(m, n - 1);
      var below := TrueKeysBelow(m, n - 1);
      if Current(m, n - 1) {
        assert TrueKeysBelow(m, n) == below + {n - 1};
      } else {
        assert TrueKeysBelow(m, n) == below;
      }
    }
  }

  /** When every key is a step position, the counted true values are exactly
      the check marks the list shows, and so never more than the steps. */
  lemma CountMatchesChecked(m: StepMap, n: nat)
    requires KeysBelow(m, n)
    ensures CompletedCount(m) == CheckedSteps(m, n)
    ensures CompletedCount(m) <= n
  {
    assert TrueKeys(m) == TrueKeysBelow(m, n);
    TrueKeysBelowCount(m, n);
  }

  /** Setting one key moves the count by what that key changes. */
  lemma CountAfterSet(m: StepMap, i: int, b: bool)
    ensures CompletedCount(m[i := b]) + (if Current(m, i) then 1 else 0)
            == CompletedCount(m) + (if b then 1 else 0)
  {
    var rest := TrueKeys(m) - {i};
    if Current(m, i) {
      assert TrueKeys(m) == rest + {i};
    } else {
      assert TrueKeys(m) == rest;
    }
    if b {
      assert TrueKeys(m[i := b]) == rest + {i};
    } else {
      assert TrueKeys(m[i := b]) == rest;
    }
  }

  /** A successful toggle moves the count by exactly one step; a rolled-back
      toggle leaves it where it was. */
  lemma ToggleCount(u: string, rec: string, m: StepMap, store: Store, i: int, faults: Faults)
    ensures var t := ToggleStep(Some(u), rec, m, store, i, faults);
            && (faults == NoFaults && Current(m, i) ==> CompletedCount(t.progress) + 1 == CompletedCount(m))
            && (faults == NoFaults && !Current(m, i) ==> CompletedCount(t.progress) == CompletedCount(m) + 1)
            && (faults != NoFaults ==> CompletedCount(t.progress) == CompletedCount(m))
  {
    CountAfterSet(m, i, !Current(m, i));
    CountAfterSet(m, i, Current(m, i));
  }

  datatype Summary = Summary(completedCount: nat, totalSteps: nat, percentage: nat)

  /** The progress header: completed count, number of steps and the rounded
      percentage. With every key on the list the count is the number of check
      marks shown and the percentage lies in 0..100. */
  function Summarize(m: StepMap, steps: seq<string>): (s: Summary)
    ensures s.totalSteps == |steps|
    ensures s.completedCount == CompletedCount(m)
    ensures s.percentage == Percent.RoundedPercent(s.completedCount, s.totalSteps)
    ensures |steps| == 0 ==> s.percentage == 0
    ensures KeysBelow(m, |steps|) ==>
              s.completedCount == CheckedSteps(m, |steps|) && s.percentage <= 100
  {
    var count := CompletedCount(m);
    assert KeysBelow(m, |steps|) ==>
             count == CheckedSteps(m, |steps|) && Percent.RoundedPercent(count, |steps|) <= 100 by {
      if KeysBelow(m, |steps|) {
        CountMatchesChecked(m, |steps|);
        Percent.PercentInRange(count, |steps|);
      }
    }
    Summary(count, |steps|, Percent.RoundedPercent(count, |steps|))
  }

  /** Records for steps 0 and 2 of a four-step list: two completed, 50%. */
  lemma LoadPopulationExample()
    ensures Summarize(Load([Row(0, true), Row(2, true)]), ["a", "b", "c", "d"])
            == Summary(2, 4, 50)
  {
    var m := Load([Row(0, true), Row(2, true)]);
    assert [Row(0, true), Row(2, true)][..1] == [Row(0, true)];
    assert [Row(0, true)][..0] == [];
    assert Load([Row(0, true)]) == map[0 := true];
    assert m == map[0 := true, 2 := true];
    assert TrueKeys(m) == {0, 2};
  }
}
