# Marketing strategy app: the logic behind its pages, in Dafny

This project models the logic of a small single-page application. In the app, business owners fill
out a business profile, read weekly marketing recommendations, and tick off each recommendation's
steps in a progress checklist. All persistence goes through a hosted backend. In the model every
backend request becomes a parameter: a `Common.Reply` that is either the returned data or an
error. Every page handler becomes a pure transition function over an immutable state record.

Modules, one per source component:

- `ProgressChecklist` (`src/components/ProgressChecklist.tsx`) is the centrepiece. The step map is
  a `map<int, bool>` loaded from the progress_tracking rows. A toggle runs in two phases: `Apply`
  flips the step optimistically and keeps a snapshot, and `Settle` keeps the new value or rolls
  back to the snapshot. Between the phases, `Reconcile` runs the existence check and then the
  update or insert against the table. The table is a `map<(user, recommendation, step), bool>`,
  and `Faults` says which request fails. `Summarize` gives the completed count and percentage.
- `Percent` holds the shared `round(100 * count / total)`-or-0 formula, in integer round-half-up
  form.
- `Recommendations` holds the weekly recommendation record. It also holds the normalisation of a
  step list that can arrive as an array, a JSON string or anything else.
- `StrategyHistory` (`src/components/StrategyHistoryPage.tsx`) builds the history list: one entry
  per recommendation with its completion percentage.
- `WeeklyStrategy` (`src/components/WeeklyStrategyPage.tsx`) loads the weekly recommendation and
  renders it: numbered steps and the checklist, shown only when the step list is non-empty.
- `AppRouting` (`src/App.tsx`) runs the profile-existence check and picks the screen.
- `Profiles` holds the six profile fields shared by both profile screens, single-field edits and
  the value-to-label tables.
- `ProfilePage` (`src/components/ProfilePage.tsx`) is the edit/cancel/save state machine.
- `ProfileForm` (`src/components/BusinessProfileForm.tsx`) prefills the form from a row with
  defaults. Its upsert carries the description, and `onComplete` is gated on the upsert's result.

Three facts about the checklist code shape the model:

- The code does not reject a step index outside the step list. The only caller is the list of
  step buttons, so the model proves that toggling a listed step keeps every key on the list
  (`ToggleKeepsKeysBelow`).
- A failed bulk read is only logged, and the map keeps its previous contents.
- Rollback restores the whole map as it was when the toggle started, with the step set back to
  its old value (`Settle`).

## Model

| member | source | states |
|---|---|---|
| `Common.ErrorText` | src/components/ProfilePage.tsx:139 | a caught error shows its own message when it is an `Error`, otherwise the page's fallback text |
| `Percent.RoundedPercent` | src/components/ProgressChecklist.tsx:102 | 0 when there are no steps; otherwise the whole percentage nearest to 100·count/total, ties rounding up (the exact value lies in [p − ½, p + ½)) |
| `Percent.PercentInRange` | src/components/ProgressChecklist.tsx:102 | with count ≤ total the percentage is at most 100; it is 100 when all steps are done and 0 when none are |
| `Percent.PercentMonotone` | src/components/StrategyHistoryPage.tsx:58 | more completed steps never give a smaller percentage |
| `Recommendations.NormalizeSteps` | src/components/StrategyHistoryPage.tsx:43-47 | an array is kept as is, a string is decoded, any other value gives the empty list |
| `ProgressChecklist.Load` | src/components/ProgressChecklist.tsx:40-45 | the keys are exactly the returned step indices; each holds the flag of the last row for that step, so a later duplicate overwrites an earlier one |
| `ProgressChecklist.LoadProgress` | src/components/ProgressChecklist.tsx:21-52 | no user or an empty recommendation id changes nothing; otherwise loading ends; a failed read keeps the map; a successful one replaces the map by a fresh one built from the returned rows alone, so each step shows its last returned flag and no earlier value survives |
| `ProgressChecklist.UnloadedStepIsIncomplete` | src/components/ProgressChecklist.tsx:134 | a step with no returned row reads as not completed |
| `ProgressChecklist.Apply` | src/components/ProgressChecklist.tsx:57-62 | the toggled step shows the negation of its current value (absent = false); every other key is unchanged; the snapshot is the pre-toggle map |
| `ProgressChecklist.Settle` | src/components/ProgressChecklist.tsx:94-96 | success keeps the optimistic map; failure restores the snapshot with the step at its pre-toggle value, so every step shows what it showed before |
| `ProgressChecklist.Reconcile` | src/components/ProgressChecklist.tsx:64-93 | succeeds iff neither the existence check nor the write fails; it updates iff a record exists, else inserts; afterwards the key holds the new value and no other key changes; a failure leaves the table alone |
| `ProgressChecklist.ToggleStep` | src/components/ProgressChecklist.tsx:54-97 | no user: a no-op on map and table; all requests succeed: the step and its record both hold the negated value and nothing else changes; any request fails: the table is untouched and every step shows its pre-toggle value |
| `ProgressChecklist.ToggleTwiceRestores` | src/components/ProgressChecklist.tsx:57-58 | two successful toggles of one step show its original value again, and its record holds that value |
| `ProgressChecklist.LoadInSync` | src/components/ProgressChecklist.tsx:31-45 | when the returned rows are exactly the table's records for this user and recommendation, the freshly loaded map agrees with the table on every step, which starts the agreement a toggle keeps |
| `ProgressChecklist.ToggleKeepsInSync` | src/components/ProgressChecklist.tsx:54-97 | if map and table agree on every step before a toggle, they still agree after it settles, whether it succeeded or rolled back |
| `ProgressChecklist.ToggleKeepsKeysBelow` | src/components/ProgressChecklist.tsx:127-130 | toggling a step of the list keeps every key of the map a position of the list |
| `ProgressChecklist.CompletedCount` | src/components/ProgressChecklist.tsx:100 | the number of keys whose value is true: at most the number of keys, and 0 exactly when no key is true |
| `ProgressChecklist.CheckedSteps` | src/components/ProgressChecklist.tsx:127-138 | the number of the list's check marks that are on: at most the number of steps, equal to it exactly when every step shows checked, and 0 exactly when none does |
| `ProgressChecklist.CountMatchesChecked` | src/components/ProgressChecklist.tsx:100-101 | when all keys are step positions, the number of true values equals the number of check marks the list shows, and so is at most the number of steps |
| `ProgressChecklist.CountAfterSet` | src/components/ProgressChecklist.tsx:100 | setting one key moves the completed count by what that key's visible value changes |
| `ProgressChecklist.ToggleCount` | src/components/ProgressChecklist.tsx:54-102 | a successful toggle moves the completed count by exactly one, up or down; a rolled-back toggle leaves it unchanged |
| `ProgressChecklist.Summarize` | src/components/ProgressChecklist.tsx:100-102 | the count is the number of true values in the map, the total is the step-list length, and the percentage is the rounded 100·count/total, or 0 with no steps; with every key on the list the count equals the shown check marks and the percentage is within 0..100 |
| `ProgressChecklist.LoadPopulationExample` | src/components/ProgressChecklist.tsx:40-45 | records for steps 0 and 2 of a four-step list give 2 completed of 4, 50% |
| `StrategyHistory.CountCompleted` | src/components/StrategyHistoryPage.tsx:57 | the count is the multiplicity of `true` among the progress rows' flags |
| `StrategyHistory.Summarize` | src/components/StrategyHistoryPage.tsx:43-66 | an entry keeps the strategy's id, title and week, stores the normalised steps, and shows the rounded 100·(completed rows)/(steps), so an empty list shows 0%; the percentage is at most 100 when no more rows are completed than there are steps |
| `StrategyHistory.SummarizeAll` | src/components/StrategyHistoryPage.tsx:41-68 | succeeds iff every progress query succeeds; then one entry per strategy in the same position, with its id, title, week, normalised steps and rounded percentage |
| `StrategyHistory.LoadStrategies` | src/components/StrategyHistoryPage.tsx:27-77 | no user changes nothing; otherwise loading ends; a failed fetch, an empty result or any failed progress query leaves the list as it was; otherwise the list is the entries built for the fetched strategies, in the fetched order, each with its rounded percentage |
| `StrategyHistory.LoadKeepsWeekOrder` | src/components/StrategyHistoryPage.tsx:32-36 | when the backend returns newest week first, the list is newest week first |
| `StrategyHistory.CountsAgree` | src/components/StrategyHistoryPage.tsx:57 | with at most one row per step, the history page's count equals the checklist's count of the same rows |
| `StrategyHistory.PercentagesAgree` | src/components/StrategyHistoryPage.tsx:58 | with at most one row per step, the history page and the checklist show the same percentage |
| `WeeklyStrategy.MaybeSingle` | src/components/WeeklyStrategyPage.tsx:32-36 | a single-row query succeeds iff at most one row matches; it gives no row or that row |
| `WeeklyStrategy.LoadRecommendation` | src/components/WeeklyStrategyPage.tsx:27-45 | no user changes nothing; otherwise loading ends; a failed query or more than one row keeps the recommendation; zero or one row replaces it |
| `WeeklyStrategy.Latest` | src/components/WeeklyStrategyPage.tsx:32-36 | picks a fetched recommendation whose week number is the highest, the first such one on a tie |
| `WeeklyStrategy.LoadLatestRecommendation` | src/components/WeeklyStrategyPage.tsx:27-45 | as the load above, but any non-empty result shows a recommendation of the newest week |
| `WeeklyStrategy.LoadsAgreeOnOneWeek` | src/components/WeeklyStrategyPage.tsx:32-39 | with at most one recommendation the written and the intended load give the same state |
| `WeeklyStrategy.Render` | src/components/WeeklyStrategyPage.tsx:59-170 | spinner while loading; empty state without a recommendation; otherwise the steps section and the checklist appear iff the normalised list is non-empty, step k is labelled k + 1, the checklist gets the recommendation's id and that list, and the templates section shows iff there is template text |
| `WeeklyStrategy.StepsAgreeAcrossPages` | src/components/WeeklyStrategyPage.tsx:81-85 | the list the weekly page hands to the checklist is the list the history entry stores for the same recommendation, and the checklist appears iff that list is non-empty |
| `WeeklyStrategy.SecondWeekHidesFocus` | src/components/WeeklyStrategyPage.tsx:32-41 | as written, a user with two or more recommendations sees the empty state |
| `WeeklyStrategy.LatestWeekShown` | src/components/WeeklyStrategyPage.tsx:32-39 | with the intended load, a user with any recommendation sees a newest-week recommendation |
| `AppRouting.UserChanged` | src/App.tsx:18-24 | with a user the profile check starts; without one it is over; profile flag and view are untouched |
| `AppRouting.SettleCheck` | src/App.tsx:26-45 | the check always ends; on success the profile flag is the answer and the view is the dashboard iff a profile exists; on failure flag and view stay |
| `AppRouting.ProfileComplete` | src/App.tsx:47-50 | the profile exists and the dashboard view is chosen |
| `AppRouting.EditProfile` | src/App.tsx:52-54 | the profile view is chosen and the profile flag stays |
| `AppRouting.Render` | src/App.tsx:56-76 | spinner iff auth loading or check pending; then sign-in iff no user; then dashboard iff view is dashboard and a profile exists; the profile form otherwise |
| `AppRouting.SignInRoutes` | src/App.tsx:14-45 | after sign-in from the start, an existing profile leads to the dashboard; a missing profile or a failed check leads to the form |
| `AppRouting.SignedOutShowsAuth` | src/App.tsx:64-66 | without a user, once auth has loaded, the sign-in screen shows |
| `AppRouting.SavedProfileShowsDashboard` | src/App.tsx:71-75 | a successful profile save calls back, and the application then shows the dashboard |
| `AppRouting.EditThenCompleteReturns` | src/App.tsx:47-54 | editing shows the form; completing it shows the dashboard again |
| `Profiles.Set` | src/components/ProfilePage.tsx:277-279 | a field edit reads back the new value and every other field is unchanged |
| `Profiles.SetLaws` | src/components/BusinessProfileForm.tsx:148 | re-setting a field's own value is the identity; a second edit of a field overrides the first |
| `Profiles.Find` | src/components/ProfilePage.tsx:205 | finds nothing iff no entry has the value; otherwise the first entry with the value |
| `Profiles.LabelOf` | src/components/ProfilePage.tsx:204-207 | a value the table does not know is shown as is |
| `Profiles.LabelOfKnown` | src/components/ProfilePage.tsx:237-240 | in a table with distinct values and non-empty labels, each value shows its own label |
| `Profiles.TablesWellFormed` | src/components/ProfilePage.tsx:48-60 | the business-type and budget tables have distinct values and non-empty labels |
| `ProfilePage.Load` | src/components/ProfilePage.tsx:76-96 | no user changes nothing; a successful read sets the shown profile and the working copy to the row; a failed one keeps both and sets the load error; the loading flag ends, and edit mode, saving flag and success text never change, nor does the error text on success |
| `ProfilePage.Edit` | src/components/ProfilePage.tsx:98-102 | enters edit mode and clears error and success; nothing else changes |
| `ProfilePage.Cancel` | src/components/ProfilePage.tsx:104-108 | the working copy becomes the shown profile, edit mode ends and the error clears; the shown profile is unchanged |
| `ProfilePage.EditField` | src/components/ProfilePage.tsx:276-280 | changes exactly one field of the working copy (id kept); without a working copy nothing changes; the shown profile, edit mode, messages and the loading and saving flags never change |
| `ProfilePage.Submit` | src/components/ProfilePage.tsx:110-143 | no user or working copy: nothing sent, nothing changes; otherwise the working copy is sent by id; success makes it the shown profile, ends edit mode and sets the success text; failure keeps profile and mode and sets the error text; the working copy and the loading flag are untouched and saving ends |
| `ProfilePage.CancelDiscardsEdits` | src/components/ProfilePage.tsx:98-108 | edit, change a field, cancel: the working copy equals the unchanged shown profile again |
| `ProfilePage.SaveThenCancelKeepsSaved` | src/components/ProfilePage.tsx:104-136 | after a successful save, cancelling keeps the saved values |
| `ProfileForm.InitialFormBlank` | src/components/BusinessProfileForm.tsx:41-48 | the initial form has every field empty except business type `local` |
| `ProfileForm.OrDefault` | src/components/BusinessProfileForm.tsx:71-74 | a null or empty column gives the fallback; any other value is kept |
| `ProfileForm.FromRow` | src/components/BusinessProfileForm.tsx:67-75 | name and industry are copied verbatim; an empty or missing type becomes `local`; a missing city, budget or goal becomes empty |
| `ProfileForm.Load` | src/components/BusinessProfileForm.tsx:54-82 | no user changes nothing; only a successful read with a row replaces the fields; no row or an error leaves them |
| `ProfileForm.EditField` | src/components/BusinessProfileForm.tsx:148 | exactly the edited field changes |
| `ProfileForm.Description` | src/components/BusinessProfileForm.tsx:102 | the description is the business type, then " business in ", then the city |
| `ProfileForm.Submit` | src/components/BusinessProfileForm.tsx:84-113 | no user: nothing sent, no callback; otherwise the upsert carries the user, the fields and the description; `onComplete` is called iff it succeeds, and on failure the error text is stored; the fields and the loading flag are untouched and saving ends |
| `ProfileForm.SavedRowReloads` | src/components/BusinessProfileForm.tsx:67-104 | when the saved business type is non-empty (as the form's select always makes it), reloading the row just saved prefills exactly the saved fields |

## Left out

- Backend client calls, the auth context and sign-out are not modelled. Each request is a
  `Reply` parameter and the current user is an `Option<string>` parameter.
- Record ids and `updated_at` timestamps are not modelled. The checklist table keeps only the `completed` flag per natural key. Updating "the record with the found id"
  is updating the record of that key.
- The checklist table holds at most one record per (user, recommendation, step). The code does
  not rely on a uniqueness constraint for this. With duplicate rows, the real existence check
  fails and the toggle rolls back.
- Overlapping toggles and parallel fetches are not modelled: one toggle settles before the next
  begins. An overlap would show in three ways. `Settle`'s snapshot-based rollback would undo
  another step's toggle that completed in between. Two overlapping toggles of one step can both
  find no record in the existence check and both insert, creating the duplicate rows above. Two
  overlapping updates can land out of order and leave the record at a value the map does not show.
- `ProgressChecklist.Summarize`: the percentage is always the rounded 100·count/total, but the
  0..100 bound is proved only when every key is a step position. Rows for step indices beyond the
  list are counted too, as in the code, and can push the percentage above 100.
- `Percent.RoundedPercent`: this is integer round-half-up. It does not model binary floating-point
  `Math.round((c / n) * 100)`, which can round an exact .5 case down (29 of 200 shows 14).
- `Recommendations.NormalizeSteps`: `JSON.parse` is an uninterpreted `string -> seq<string>`
  parameter. A string that fails to parse throws in the real code: the history load is abandoned
  and the weekly page fails to render. That is not modelled.
- Browser form validation (`required` inputs) is not part of the submit handlers and is not
  modelled.
- The static option lists for industries and goals are not modelled; they are only rendered. The
  timed clearing of the success message, the clipboard copy and its "Copied!" flag are not
  modelled either, because they are timers and browser APIs.
- Rendering, styling, icons and the static pages (`Layout`, `Header`, `Progress`) are not
  modelled. Locale date formatting in `Dashboard` and `WeeklyStrategy` is not modelled. The rest
  of those two files is fetch-and-render. The script loader in `src/lib/safeScriptLoader.ts` is
  DOM injection and timing.
- Transient flags that are set and cleared within one handler are modelled at their settled
  values. Examples are `saving`, and `loading` on the paths that reach `finally`.

## Findings

| source | as written | input that shows it | evidently intended | confidence | as-written member | corrected member |
|---|---|---|---|---|---|---|
| src/components/WeeklyStrategyPage.tsx:32-36 | the weekly page reads the user's recommendations with `.maybeSingle()`, with no ordering or limit | a user with two recommendations, week 1 and week 2. The history page lists both, but the single-row query fails, the error is only logged, and the page shows "Your first weekly strategy will appear here" | show the newest week's recommendation | medium, not executed | `WeeklyStrategy.LoadRecommendation` (shown by `WeeklyStrategy.SecondWeekHidesFocus`) | `WeeklyStrategy.LoadLatestRecommendation` (shown by `WeeklyStrategy.LatestWeekShown`) |
