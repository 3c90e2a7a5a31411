# NourishAI meal planner — a Dafny model of its client-side logic

This project models the deterministic logic of the NourishAI web app (React, JavaScript) and proves properties of it. It covers:

- **The progress service** (`src/services/progressService.js`), in `ProgressService`:
  - `calculateProgressStats`: it sorts the logs newest first and derives the current weight, net change, averages, goal percentage and three-point trend;
  - the seven-day week bucketing of `getWeeklyProgressSummary`;
  - the inclusive date filter of `getProgressLogsInRange`.
- **The two questionnaires**:
  - `ProfileForm`: the four-step `UserProfileForm`, with its list toggle, step bounds, per-step validity and ingredient parser, plus an event machine over its buttons;
  - `Onboarding`: the five-step wizard, its multi-select and single-choice setters, and the user record it builds.
- **The top-level view flow** of `App` (`App`): landing, profile setup, subscription, dashboard and logout, the restore from browser storage, and the view dispatch.
- **The user context** (`UserContext`): the `useUser` guard, the shallow `updateUser` merge, the `logProgress` append, and the seeded demo user.
- **The progress screens**:
  - `ProgressPage`: the week delta, mean adherence, achievements, recent list and week numbering;
  - `ProgressTracker`: the array-order aggregator, chart rows and reversed history.
- **Route and string rules**:
  - `AppShell`: the active-entry rule and the header title;
  - `Dashboard`: the meal template picked from the first health goal, the day's calories and completion figures, and the bar widths.

Shared modules model the JavaScript built-ins the app leans on:

- `Options`: `null`/`undefined` as `None`, and thrown errors as `Failure`.
- `JsNumber`: `Math.round`, truthiness of numbers, sums and means.
- `Text`: `trim`, `split`/`join`, ASCII `toLowerCase` and a first-occurrence `replace`.
- `Lists`: the membership toggle.
- `JsObject`: JavaScript values and the object spread `{ ...a, ...b }`.

Conventions:

- Dates are integer day numbers, which order like the ISO `YYYY-MM-DD` strings the app stores.
- Clock readings are parameters, in milliseconds wherever the source uses `Date.now()`.
- Weights and means are exact `real`s.
- `Math.round(x)` is `Floor(x + 0.5)`.
- An optional number is an `Option<real>`; `Some(0.0)` is falsy wherever the source tests truthiness.

## Model

| member | source | states |
|---|---|---|
| ProgressService.CalculateProgressStats | src/services/progressService.js:131-186 | An empty list gives a null weight, zeros and 'stable'. Otherwise the current weight is the latest-dated log's. The change is latest minus earliest-dated weight, and is nonzero only if both are truthy. Goal progress is never negative, and is nonzero only under a truthy target, current and earliest weight. A trend other than 'stable' needs a truthy target and at least three logs. |
| ProgressService.NewestFirst | src/services/progressService.js:143-146 | The sort returns a new sequence: a permutation of the input, ordered by date, newest first. |
| ProgressService.InsertOrdered | src/services/progressService.js:144-146 | One insertion step keeps a newest-first list newest first. |
| ProgressService.NewestFirstStable | src/services/progressService.js:144-146 | Logs that share a date keep their input order through the sort. |
| ProgressService.NewestFirstKeepsOrdered | src/services/progressService.js:144-146 | A list already newest first comes out of the sort unchanged. |
| ProgressService.LatestIndex | src/services/progressService.js:148 | Picks a log no other log is newer than, the first-listed one among ties. |
| ProgressService.EarliestIndex | src/services/progressService.js:149 | Picks a log no other log is older than, the last-listed one among ties. |
| ProgressService.NewestFirstHead | src/services/progressService.js:148 | `sortedLogs[0]` is the first-listed latest-dated log of the input. |
| ProgressService.NewestFirstLast | src/services/progressService.js:149 | `sortedLogs[length - 1]` is the last-listed earliest-dated log of the input. |
| ProgressService.NetChange | src/services/progressService.js:150 | With both weights truthy, the change is what takes the earliest weight to the latest. Otherwise it is 0; a weight of 0 counts as missing. |
| ProgressService.GoalProgress | src/services/progressService.js:161-164 | The unrounded goal percentage is never negative, and is 0 unless target, current and earliest weights are all truthy. It is also 0 when the target equals the earliest weight. Otherwise it is the achieved distance over the needed distance, in percent. |
| ProgressService.GoalProgressFromEnds | src/services/progressService.js:148-164 | The reported goal percentage measures the latest-dated against the earliest-dated log, rounded. |
| ProgressService.GoalProgressNotClamped | src/services/progressService.js:164 | Overshooting the target reports more than 100: 72 to 66 against a 68 target gives 150. |
| ProgressService.TruthyWeightsOfThree | src/services/progressService.js:168-169 | Three weights survive the `filter(Boolean)` exactly when all three are truthy, and then they come out in order. |
| ProgressService.RecentTrend | src/services/progressService.js:167-175 | A trend other than stable needs three logs whose weights are all truthy. Decreasing means the newest weight is more than 0.5 below the third-newest; increasing means more than 0.5 above. |
| ProgressService.TrendCharacterization | src/services/progressService.js:161-175 | 'decreasing' iff every guard holds and newest minus third-newest weight is below -0.5. 'increasing' iff every guard holds and it is above 0.5. 'stable' iff a guard fails or the difference is at most 0.5. |
| ProgressService.AveragesOverAllLogs | src/services/progressService.js:152-182 | Both averages divide the sum over every log, with a missing score as 0, by the full log count. Energy is that mean rounded to the nearest multiple of 0.1 (`RoundTenth`), adherence that mean rounded to the nearest integer. |
| ProgressService.AveragesWithinScale | src/services/progressService.js:152-156 | With every energy in 1..10 and adherence in 0..100, the rounded averages stay in those ranges. |
| ProgressService.ExampleAverages | src/services/progressService.js:152-182 | Energies 8, 7, 9 average to 8.0, and adherence 90, 85, 95 to 90, whatever the target. |
| ProgressService.ExampleCurrentAndChange | src/services/progressService.js:148-150 | For 71 → 70.5 → 70 the current weight is 70 and the change is -1. |
| ProgressService.ExampleDecreasingTrend | src/services/progressService.js:167-173 | Those same logs, with target 68, have a 'decreasing' trend. |
| ProgressService.ExampleGoalThird | src/services/progressService.js:161-183 | One of the three kilograms from 71 towards 68 rounds to 33%. |
| ProgressService.ExampleGoalProgress | src/services/progressService.js:161-183 | Going from 72 to 69 with target 68 gives 75. |
| ProgressService.ExampleThresholdIsStrict | src/services/progressService.js:171 | A difference of exactly 0.5 stays 'stable'. |
| ProgressService.ExampleZeroWeightIsMissing | src/services/progressService.js:168 | A weight of 0 among the three newest blocks the trend, even with a 10 kg swing. |
| ProgressService.LogsInRange | src/services/progressService.js:65-68 | The filter never lengthens the list. |
| ProgressService.LogsInRangeMembers | src/services/progressService.js:65-68 | A log is kept iff it is dated within [lo, hi], both ends included. |
| ProgressService.LogsInRangeCounts | src/services/progressService.js:65-68 | A log in range keeps its exact number of copies; one out of range has none. |
| ProgressService.LogsInRangeNested | src/services/progressService.js:194-207 | Filtering the window and then a range inside it equals filtering that range alone. |
| ProgressService.OccupiedWeeks | src/services/progressService.js:198-209 | The loop visits at most `weeks - from` indexes with an entry. They are strictly ascending, lie in range, and each week holds a log. |
| ProgressService.OccupiedWeeksMembers | src/services/progressService.js:198-209 | A week index is visited with an entry iff it is in the loop's range and its filter is non-empty. |
| ProgressService.WeeklySummary | src/services/progressService.js:197-225 | At most `weeks` entries, numbered within 1..weeks, strictly ascending. |
| ProgressService.Summarize | src/services/progressService.js:209-221 | An entry keeps its week number and bounds. Weight and energy are within 0.05 of the week's sum over its log count, and multiples of 0.1. Adherence is within 0.5 of its mean. |
| ProgressService.WeekLogsNonEmpty | src/services/progressService.js:204-209 | A week's filter is non-empty iff some log is dated within its seven days, both ends inclusive. |
| ProgressService.WeeklySummaryEntries | src/services/progressService.js:199-221 | Entry number w covers days start+7(w-1) to start+7(w-1)+6, and some log is dated in it. |
| ProgressService.WeeklySummaryWeeks | src/services/progressService.js:214-215 | There is one entry per occupied week index, numbered index + 1. |
| ProgressService.WeeklySummaryComplete | src/services/progressService.js:197-225 | Week i+1 of the window has an entry iff a log is dated in its seven days: empty weeks are skipped, and no occupied week is lost. |
| ProgressService.WeekAveragesOverItsLogs | src/services/progressService.js:204-220 | Each entry averages exactly the logs in its inclusive seven-day range, dividing by their count. |
| ProgressService.WindowFilterIsRedundant | src/services/progressService.js:194-207 | Narrowing the logs to the whole window first changes no entry. |
| ProgressService.OccupiedWeeksNone | src/services/progressService.js:198-209 | With every week of the range empty, the loop pushes no entry. |
| ProgressService.WindowLastDayInNoWeek | src/services/progressService.js:189-207 | A log dated on the window's closing day passes the window filter, lies in none of the weeks, and yields no entry. |
| ProgressService.GetWeeklyProgressSummary | src/services/progressService.js:189-225 | At most `weeks` entries, numbered within 1..weeks, strictly ascending. |
| ProgressService.WeekLogsAsWritten | src/services/progressService.js:199-207 | With weeks bounded by the call's instant and log dates read as midnight UTC, a log is collected iff its midnight lies between the week's start instant and six days later. |
| ProgressService.FirstDayDroppedAsWritten | src/services/progressService.js:190-207 | Unless the call falls at exactly midnight UTC, a log dated on a week's first day falls in no week as written. The day-based `WeekLogs` holds it. |
| JsNumber.Round | src/services/progressService.js:182-183 | `Math.round` lands within half a unit of its argument, with halves rounded up. |
| JsNumber.RoundTenth | src/services/progressService.js:181 | The result is a multiple of 0.1 within 0.05 of the argument. |
| JsNumber.SumAppend | src/services/progressService.js:152-156 | The `reduce` sum of a concatenation is the sum of the sums. |
| JsNumber.SumBounds | src/services/progressService.js:152-156 | A sum of n terms each in [lo, hi] lies in [n·lo, n·hi]. |
| JsNumber.MeanBounds | src/services/progressService.js:152-156 | The mean of values in [lo, hi] lies in [lo, hi]. |
| Lists.Remove | src/components/UserProfileForm.jsx:46 | The `filter` drops every copy of the value and keeps every other element's count. |
| Lists.RemoveSingleton | src/components/UserProfileForm.jsx:46 | A one-element list keeps its element iff it differs from the value. |
| Lists.RemoveAppend | src/components/UserProfileForm.jsx:46 | The filter of a concatenation is the concatenation of the filters. So the kept elements stay in their order, and with `RemoveSingleton` the result is fixed on every list. |
| Lists.RemoveAbsent | src/components/UserProfileForm.jsx:46 | Filtering out an absent value changes nothing. |
| Lists.RemoveAppended | src/components/UserProfileForm.jsx:46-47 | Filtering out a value just appended gives back the list before it. |
| Lists.Toggle | src/components/UserProfileForm.jsx:45-47 | The value is in the result iff it was not in the list. Other elements keep their counts. An absent value is appended at the end. A present value is filtered out as `Remove` does, so the rest keeps its order. |
| Lists.ToggleTwiceRestores | src/components/UserProfileForm.jsx:45-47 | Toggling an absent value twice restores the list, order included. |
| Lists.ToggleTwicePresent | src/components/UserProfileForm.jsx:45-47 | Toggling a present value twice leaves one copy, moved to the end. |
| Lists.ToggleKeepsDistinct | src/components/UserProfileForm.jsx:45-47 | Toggling keeps a duplicate-free list duplicate-free. |
| ProfileForm.Set | src/components/UserProfileForm.jsx:43-48 | `{ ...prev, [field]: xs }` changes the named list only. |
| ProfileForm.HandleArrayToggle | src/components/UserProfileForm.jsx:42-49 | The value is in the named list iff it was not; other values keep their counts. Every other list and both cooking fields are unchanged. |
| ProfileForm.HandleArrayToggleTwice | src/components/UserProfileForm.jsx:45-47 | Toggling an absent value twice gives back the same form. |
| ProfileForm.HandleNext | src/components/UserProfileForm.jsx:51-53 | The step moves up only while below 4, and stays in 1..4. |
| ProfileForm.HandlePrev | src/components/UserProfileForm.jsx:55-57 | The step moves down only while above 1, and stays in 1..4. |
| ProfileForm.NextThenPrev | src/components/UserProfileForm.jsx:51-57 | Previous undoes Next below the last step. |
| ProfileForm.IsStepValid | src/components/UserProfileForm.jsx:63-76 | Only steps 1..4 can be valid. |
| ProfileForm.IsStepValidCases | src/components/UserProfileForm.jsx:63-76 | Step 1 is valid iff a goal is chosen. Step 3 is valid iff both cooking fields are non-empty. Steps 2 and 4 are always valid; any other step never is. |
| ProfileForm.ParseDisliked | src/components/UserProfileForm.jsx:159 | Every parsed ingredient is non-empty, comma-free, and has whitespace at neither edge. |
| ProfileForm.TrimAll | src/components/UserProfileForm.jsx:159 | The `map(trim)` keeps the length and trims each item in place. |
| ProfileForm.KeepNonEmpty | src/components/UserProfileForm.jsx:159 | The `filter(Boolean)` keeps only non-empty strings, all taken from the input. Every non-empty string keeps its exact count. |
| ProfileForm.KeepNonEmptyAppend | src/components/UserProfileForm.jsx:159 | The filter of a concatenation is the concatenation of the filters, so survivors keep their order. |
| ProfileForm.ParseDislikedKeepsPieces | src/components/UserProfileForm.jsx:159 | Every comma-separated piece that is not blank appears, trimmed, in the parse. |
| ProfileForm.ParseDislikedRoundTrip | src/components/UserProfileForm.jsx:159 | Clean items joined with commas parse back to the same items. |
| ProfileForm.CleanItemsSurvive | src/components/UserProfileForm.jsx:159 | Trimming and filtering leave a list of clean items unchanged. |
| ProfileForm.ParseDislikedIdempotent | src/components/UserProfileForm.jsx:159 | Re-parsing the comma-joined result of a parse gives the same result. |
| ProfileForm.StepPercent | src/components/UserProfileForm.jsx:289 | Steps 1..4 show 25, 50, 75 and 100%. |
| ProfileForm.Enabled | src/components/UserProfileForm.jsx:304-340 | Every enabled control except "Previous" needs a step in 1..4. "Next" needs a valid step below 4, and "Previous" any step but 1. |
| ProfileForm.Apply | src/components/UserProfileForm.jsx:42-160 | A disabled control changes nothing. Only "Next" and "Previous" move the step, by one, and they never touch the answers. "Complete Profile" leaves the screen as it is. |
| ProfileForm.InitialScreenReachable | src/components/UserProfileForm.jsx:5-13 | The opening screen (step 1, empty form) meets the invariant. |
| ProfileForm.ApplyKeepsReachable | src/components/UserProfileForm.jsx:304-340 | Every button press or keystroke keeps the invariant. The step stays in 1..4, and every step passed was valid when left. The choices come from the offered options. |
| ProfileForm.RunKeepsReachable | src/components/UserProfileForm.jsx:304-340 | Any sequence of events keeps the invariant. |
| ProfileForm.CompletedFormIsValid | src/components/UserProfileForm.jsx:319-326 | Whenever "Complete Profile" is on screen, the form has an offered health goal, cooking time and skill level. |
| Text.Trim | src/components/UserProfileForm.jsx:159 | `trim` leaves whitespace at neither edge and never lengthens. |
| Text.TrimSlice | src/components/UserProfileForm.jsx:159 | The trimmed string is a contiguous slice of the input. |
| Text.TrimCutsWhitespace | src/components/UserProfileForm.jsx:159 | Everything `trim` removes, before and after that slice, is whitespace. |
| Text.TrimKeepsTrimmed | src/components/UserProfileForm.jsx:159 | A string without whitespace edges is left alone. |
| Text.TrimIdempotent | src/components/UserProfileForm.jsx:159 | Trimming twice is trimming once. |
| Text.Split | src/components/UserProfileForm.jsx:159 | `split` gives at least one piece, and no piece contains the separator. |
| Text.JoinSplit | src/components/UserProfileForm.jsx:159 | Joining the pieces back gives the input. |
| Text.SplitJoin | src/components/UserProfileForm.jsx:159 | Splitting joined separator-free pieces gives them back. |
| Text.ToLower | src/components/Dashboard.jsx:128 | `toLowerCase` keeps the length and maps each character, upper-case ASCII to lower case. |
| Text.IndexOf | src/components/Dashboard.jsx:128 | Finds the first occurrence of the character, or reports the length when there is none. |
| Text.ReplaceFirst | src/components/Dashboard.jsx:128 | `replace(' ', '-')` rewrites only the first space, and leaves a string without one unchanged. |
| Text.ReplaceFirstCount | src/components/Dashboard.jsx:128 | Exactly one occurrence of the character goes, if there was any. |
| Onboarding.HandleMultiSelect | src/pages/Onboarding.jsx:96-103 | The value is in the named list iff it was not. Other values keep their counts, and every other field is unchanged. |
| Onboarding.HandleMultiSelectTwice | src/pages/Onboarding.jsx:96-103 | Selecting an absent value twice gives back the same form. |
| Onboarding.Choose | src/pages/Onboarding.jsx:247-308 | A single-choice click sets its field and leaves every other field as it was. |
| Onboarding.ChooseLastWins | src/pages/Onboarding.jsx:247-308 | Choices overwrite rather than accumulate: two clicks equal the last one. |
| Onboarding.HandleNext | src/pages/Onboarding.jsx:105-123 | Below the last step, "Continue" advances by one whatever the form holds. On the last step it completes with the new user. |
| Onboarding.HandleBack | src/pages/Onboarding.jsx:125-129 | Back moves down only while above step 0, staying within 0..4. |
| Onboarding.HandleNextStaysInRange | src/pages/Onboarding.jsx:105-108 | From a step in 0..4, advancing stays in 0..4. |
| Onboarding.StepTitle | src/pages/Onboarding.jsx:22-43 | Every step index in range names one of the five step titles. |
| Onboarding.FivePressesComplete | src/pages/Onboarding.jsx:105-122 | Five presses from step 0 complete onboarding, even with an empty form. |
| Onboarding.StepPercent | src/pages/Onboarding.jsx:357 | Steps 0..4 show 20, 40, 60, 80 and 100%. |
| Onboarding.FormFields | src/pages/Onboarding.jsx:10-20 | The form as an object has exactly the nine form keys. |
| Onboarding.Stamped | src/pages/Onboarding.jsx:113-118 | The added part holds exactly the expiry and the progress. |
| Onboarding.NewUser | src/pages/Onboarding.jsx:110-119 | The record has exactly `id`, the nine form keys, the expiry and `progress`. |
| Onboarding.NewUserFields | src/pages/Onboarding.jsx:110-119 | No key is overwritten by a later part. `id` is '1', each form key holds its answer, and the added keys hold their stamps. |
| Onboarding.NewUserProgress | src/pages/Onboarding.jsx:114-118 | `progress` is 70 kg now, a 65 kg target, and no weekly entries. |
| Onboarding.NewUserRecord | src/pages/Onboarding.jsx:110-119 | The record field by field: the answers, id '1', an expiry 30 days on, and the starting progress. |
| Onboarding.NewUserCanLog | src/pages/Onboarding.jsx:114-118 | A freshly onboarded user can log progress and starts with no weekly entries. |
| App.Startup | src/App.jsx:14-24 | Both saved entries restore user and profile and open the dashboard. With either missing nothing changes. Storage is untouched either way. |
| App.Open | src/App.jsx:10-24 | The app opens on the dashboard iff both entries are saved. Otherwise it opens on landing with no user or profile. |
| App.Initial | src/App.jsx:9-12 | The first render shows the landing page outside the shell, with no user or profile, and storage as saved. |
| App.DecimalString | src/App.jsx:28 | The id is a non-empty string of decimal digits. Read back left to right it is the clock reading, and it has no leading zero except for 0 itself. |
| App.DecimalStringOfDigits | src/App.jsx:28 | Conversely, every digit string without a leading zero (or "0") is the text of the number it denotes. |
| App.LeadingDigitPositive | src/App.jsx:28 | A digit string whose first digit is not 0 denotes a positive number. |
| App.SignUp | src/App.jsx:26-37 | Goes to 'profile-setup' with a saved user: the clock id, the email, null tier and expiry, a creation date. The profile is untouched. |
| App.ProfileComplete | src/App.jsx:39-48 | Fails iff there is no user. Otherwise goes to 'subscription' with a saved profile carrying the user's id and a date. Every other profile key is kept, and the user is untouched. |
| App.SubscriptionComplete | src/App.jsx:50-59 | Goes to 'dashboard' with a saved user holding the tier and an expiry 30 days on. Every other user key is kept. With no user, the result has just those two keys. |
| App.Logout | src/App.jsx:61-67 | Both saved entries are gone, user and profile are cleared, and the view is 'landing'. |
| App.Navigate | src/App.jsx:78-89 | `setCurrentView` changes the view only. |
| App.SignUpFlowPersists | src/App.jsx:14-59 | Sign-up, profile and subscription reach the dashboard with the tier and email. Reopening restores the same user and profile on the dashboard. |
| App.LogoutForgets | src/App.jsx:14-67 | After logout, reopening the app lands on an empty landing page. |
| App.RenderView | src/App.jsx:69-84 | Each known view renders its own page, and any other name renders the landing page. |
| App.Render | src/App.jsx:86-95 | Exactly the dashboard and progress pages are wrapped in the shell. |
| UserContext.UseUser | src/contexts/UserContext.jsx:5-11 | Fails, with the provider message, iff there is no context value; otherwise returns it. |
| UserContext.UpdateUser | src/contexts/UserContext.jsx:49-51 | Update keys take the new values. Every other old key keeps its value, and no key is lost. |
| UserContext.UpdateUserTwice | src/contexts/UserContext.jsx:49-51 | Two updates equal one update by their merge. |
| UserContext.UpdateUserIsShallow | src/contexts/UserContext.jsx:50 | An update carrying `progress` replaces it wholesale, dropping nested keys it lacks. |
| UserContext.Iterate | src/contexts/UserContext.jsx:58 | The array spread succeeds exactly on arrays and strings. |
| UserContext.LogProgress | src/contexts/UserContext.jsx:53-61 | Succeeds iff the user has a spreadable `progress.weeklyProgress`, and then appends the entry there. Every other user and progress key is unchanged. |
| UserContext.LogProgressAppends | src/contexts/UserContext.jsx:53-61 | After logging, the weekly list is the old one plus the entry at the end, and logging stays possible. |
| UserContext.LogProgressTwice | src/contexts/UserContext.jsx:53-61 | Two logs append both entries in order. |
| UserContext.MockUserWeeks | src/contexts/UserContext.jsx:21-43 | The demo user can log, and its four seeded weeks are numbered 1 to 4. |
| JsObject.Merge | src/contexts/UserContext.jsx:50 | `{ ...a, ...b }`: the keys of both, with b's values winning. |
| JsObject.MergeEmpty | src/contexts/UserContext.jsx:50 | Spreading an empty object on either side changes nothing. |
| JsObject.MergeIdempotent | src/contexts/UserContext.jsx:50 | Applying the same update twice is applying it once. |
| JsObject.MergeAssociative | src/contexts/UserContext.jsx:50 | Successive updates compose into one. |
| ProgressPage.WeightChange | src/pages/Progress.jsx:29-31 | The last weight minus the one before with two or more entries, else 0. |
| ProgressPage.WeightChangeAfterLog | src/pages/Progress.jsx:29-31 | After a log, the change shown is the new weight against the previous last one. |
| ProgressPage.AverageAdherence | src/pages/Progress.jsx:33-35 | 0 for no entries. Otherwise within 0.5 of the entries' adherence sum over their count. |
| ProgressPage.AverageAdherenceBounds | src/pages/Progress.jsx:33-35 | Scores in 0..100 give a rounded mean in 0..100, and 0 for no entries. |
| ProgressPage.AdherenceLabel | src/pages/Progress.jsx:144 | 'Excellent!' iff at least 90, 'Great job!' iff in 80..89, 'Keep going!' iff below 80. |
| ProgressPage.ConsistencyChampion | src/pages/Progress.jsx:63 | Earned only with at least two weeks logged. |
| ProgressPage.ConsistencyChampionMeansTwoWeeks | src/pages/Progress.jsx:63 | Earned iff two different weeks reach 90% adherence. |
| ProgressPage.HasHighAdherenceIff | src/pages/Progress.jsx:63 | The count is at least one iff some week reaches 90%. |
| ProgressPage.EnergyBoost | src/pages/Progress.jsx:75 | Earned iff some week has energy 8 or more. |
| ProgressPage.OrDefault | src/pages/Progress.jsx:26-27 | A missing or zero weight shows the default; any other shows itself. |
| ProgressPage.WeightLossWarrior | src/pages/Progress.jsx:69 | Earned iff the weight is at most 73 kg. |
| ProgressPage.WeightLossWarriorThreshold | src/pages/Progress.jsx:69 | Earned iff the shown weight is at most 73 kg. So a user without a weight, shown at 70, has it. |
| ProgressPage.GoalPercent | src/pages/Progress.jsx:126 | Undefined iff the target is the 75 kg baseline. Otherwise it is the rounded share of the 75-to-target distance already lost. |
| ProgressPage.GoalPercentDefaults | src/pages/Progress.jsx:126 | With the defaults 70 and 65 it shows 50%. |
| ProgressPage.RecentEntries | src/pages/Progress.jsx:259 | The last min(3, n) entries, newest first. |
| ProgressPage.NewEntry | src/pages/Progress.jsx:39-46 | The new entry is numbered one past the current count. |
| ProgressPage.SubmitKeepsWeeksConsecutive | src/pages/Progress.jsx:37-48 | Submitting through `logProgress` keeps the weeks numbered 1, 2, 3, … in order. |
| ProgressTracker.WeightChange | src/components/ProgressTracker.jsx:87-89 | Last minus first log's weight, by list position, 0 for no logs. |
| ProgressTracker.WeightChangeTelescopes | src/components/ProgressTracker.jsx:87-89 | The change equals the sum of the neighbour-to-neighbour changes, so only the two end positions matter. |
| ProgressTracker.AverageOf | src/components/ProgressTracker.jsx:90-95 | The plain mean, times the count, is the sum; 0 for no logs. |
| ProgressTracker.AverageEnergyBounds | src/components/ProgressTracker.jsx:90-92 | Energies in 1..10 average within 1..10. |
| ProgressTracker.AddLog | src/components/ProgressTracker.jsx:72 | The new log is appended and the earlier ones are kept as they were. |
| ProgressTracker.AddLogWeightChange | src/components/ProgressTracker.jsx:72-89 | After adding, the change is the new weight against the first one. |
| ProgressTracker.ChartData | src/components/ProgressTracker.jsx:80-85 | One row per log, in order, carrying its weight, energy and adherence. |
| ProgressTracker.ChartDataAddLog | src/components/ProgressTracker.jsx:72-85 | Charting after an add is the old chart plus the new row. |
| ProgressTracker.History | src/components/ProgressTracker.jsx:202 | The history lists the logs newest first, from a copy. |
| ProgressTracker.HistoryInvolution | src/components/ProgressTracker.jsx:202 | Reversing the history again restores the stored order. |
| ProgressTracker.HistoryAddLog | src/components/ProgressTracker.jsx:202 | After an add, the history starts with the new log. |
| ProgressTracker.SignPrefix | src/components/ProgressTracker.jsx:131 | '+' iff the change is positive, otherwise nothing. |
| ProgressTracker.ChangeIsGreen | src/components/ProgressTracker.jsx:130 | Green iff the change is not negative. |
| ProgressTracker.ZeroChangeDisplay | src/components/ProgressTracker.jsx:130-131 | A zero change is green, with no '+'. |
| AppShell.RootActiveOnlyExactly | src/components/AppShell.jsx:44-45 | 'Dashboard' is active iff the path is exactly '/app'. |
| AppShell.PrefixWithoutBoundary | src/components/AppShell.jsx:45 | '/app/progressX' activates 'Progress': there is no segment boundary. |
| AppShell.IsActive | src/components/AppShell.jsx:44-45 | An entry is active on its own path, and only on paths its link is a prefix of. A non-root entry is active on every path its link is a prefix of. The root entry is active on "/app" alone. |
| AppShell.NavigationShape | src/components/AppShell.jsx:18-23 | The three non-root links each continue past '/app/' with a different character. |
| AppShell.AtMostOneActive | src/components/AppShell.jsx:43-45 | No path activates two entries. |
| AppShell.FindActive | src/components/AppShell.jsx:90-93 | The `find` result is the first active entry, or none iff no entry is active. |
| AppShell.HeaderTitle | src/components/AppShell.jsx:90-93 | The title is "Dashboard" when no entry is active; otherwise it is the name of an active entry. |
| AppShell.HeaderTitleMatchesHighlight | src/components/AppShell.jsx:90-93 | The header names the highlighted entry. |
| AppShell.HeaderTitleFallback | src/components/AppShell.jsx:93 | A path no entry matches is titled 'Dashboard'. |
| Dashboard.PrimaryGoal | src/components/Dashboard.jsx:128 | The derived goal is never empty. A missing profile or goal list, or an empty one, gives 'weight-loss'. |
| Dashboard.GoalKey | src/components/Dashboard.jsx:127-131 | The key is always 'weight-loss' or 'muscle-building': the derived goal when it is one of these, 'weight-loss' otherwise. |
| Dashboard.GoalKeyFromFirstGoalOnly | src/components/Dashboard.jsx:128 | Goals after the first never change the key. |
| Dashboard.LowerThenHyphen | src/components/Dashboard.jsx:128 | A first goal becomes its lower-case form with only its first space turned into '-'. |
| Dashboard.GoalKeyMuscleBuilding | src/components/Dashboard.jsx:128-129 | 'Muscle Building' as first goal selects 'muscle-building'. |
| Dashboard.GoalKeyWeightLoss | src/components/Dashboard.jsx:128-129 | 'Weight Loss', no goal list or an empty one selects 'weight-loss'. |
| Dashboard.OnlyFirstSpaceReplaced | src/components/Dashboard.jsx:128-129 | 'Muscle Building Fast' becomes 'muscle-building fast', which falls back to 'weight-loss'. |
| Dashboard.GoalKeyAsWritten | src/components/Dashboard.jsx:129-131 | The lookup as written can also yield an inherited key, 'constructor' or '__proto__'. |
| Dashboard.ConstructorGoalEscapesFallback | src/components/Dashboard.jsx:128-131 | A first goal 'Constructor' yields 'constructor', which is not a template. |
| Dashboard.GoalKeyAsWrittenAgrees | src/components/Dashboard.jsx:129 | Apart from the inherited names, the lookup as written agrees with the own-key one. |
| Dashboard.Template | src/components/Dashboard.jsx:12-125 | Each template holds three meals. |
| Dashboard.GenerateMeals | src/components/Dashboard.jsx:11-131 | The day is one of the two templates: three meals, none completed. |
| Dashboard.TotalCalories | src/components/Dashboard.jsx:137 | With non-negative calories the total is non-negative and at least each meal's own calories. |
| Dashboard.TotalCaloriesAppend | src/components/Dashboard.jsx:137 | The calorie total of a split day is the sum of the parts' totals. |
| Dashboard.TemplateCalories | src/components/Dashboard.jsx:137 | The two days total 1080 and 1450 kcal. |
| Dashboard.CompletedMeals | src/components/Dashboard.jsx:138 | The count never exceeds the meal count. It is 0 iff no meal is completed, and equals the meal count iff every meal is. |
| Dashboard.CompletedMealsSingleton | src/components/Dashboard.jsx:138 | One meal counts 1 iff it is completed, else 0. |
| Dashboard.CompletedMealsAppend | src/components/Dashboard.jsx:138 | The count of a split day is the sum of the parts' counts. With `CompletedMealsSingleton` this fixes the count on every list. |
| Dashboard.GeneratedMealsNotCompleted | src/components/Dashboard.jsx:134-138 | A freshly generated day has nothing completed. |
| Dashboard.ProgressStat | src/components/Dashboard.jsx:158 | 0..3 meals give 0..100%, with 0 → 0 and 3 → 100. |
| Dashboard.ProgressStatThirds | src/components/Dashboard.jsx:158 | One and two meals show 33% and 67%. |
| Dashboard.BarWidth | src/components/Dashboard.jsx:208 | Never above 100. Exactly 100 iff the value reaches the target. Otherwise proportional to the value. Never negative for a non-negative value. |

## Left out

- Supabase, OpenAI and Stripe calls are network I/O; their mock branches return constants. This covers `progressService`'s `logProgress`, `getProgressLogs`, `updateProgressLog` and `deleteProgressLog`, and the meal-plan, auth and payment services.
- `getMockProgressLogs` draws from `Math.random` and the clock.
- ProgressService.WeeklySummary, ProgressService.WeekLogsNonEmpty and ProgressService.WeeklySummaryComplete describe idealised buckets of whole calendar days, with the window's first day as a parameter. The source computes its window start from `new Date()`, so that start keeps the time of day of the call, while `new Date(log.log_date)` reads a log date as midnight UTC. As written, a log dated on a week's first day therefore falls in no bucket at almost any hour. For the first week, the window filter at `progressService.js:65-68` drops it too. `WeekLogsAsWritten` and `FirstDayDroppedAsWritten` model this, and it is listed under Findings.
- The window of `getWeeklyProgressSummary` spans `7 * weeks` days plus its closing day, the day of the call, while its weeks cover only the first `7 * weeks` days. A log dated on that closing day passes the window filter but lands in no week and yields no entry, in the source as in the model (`WindowLastDayInNoWeek`). The model keeps this behaviour and does not promise that every log in the window is summarised.
- Clocks are parameters: `Date.now()` and `new Date()` in `App`, `Onboarding`, `Progress` and `ProgressTracker`.
- App.SignUp: the source reads the clock twice, once for the id (`Date.now()`) and once for `createdAt` (`new Date()`). The model takes both reads as one instant `now`, so it does not model a millisecond tick between them.
- The ISO date strings are modelled as the instant they denote (`Date(ms)`), not as text. The exception is ProgressPage.NewEntry, whose `date` keeps the `YYYY-MM-DD` text as a `Str`, as the page stores it. The `toLocaleDateString` chart labels are modelled as the day number.
- `localStorage` is the `Storage` record of `App.State`. `JSON.stringify`/`JSON.parse` are taken as the identity on these records.
- `ProgressTracker` keeps its logs under `progress-<id>` in storage and seeds demo logs on first load; the model starts from a given list.
- `setTimeout` (the one-second mock load in the user context) is dropped, as are React scheduling and `navigate('/app')`.
- Numbers are exact reals: IEEE-754 rounding at .5 boundaries, `NaN` from `parseFloat`/`parseInt` of empty input, and `Infinity` are not modelled. `toFixed(1)` display text is not modelled.
- ProgressPage.GoalPercent: a 75 kg target divides by zero, giving `Infinity` or `NaN` in the source; the model returns `None` there.
- Text.ToLower: `toLowerCase` is modelled for ASCII letters only; other Unicode case mappings are left out.
- Text.Trim: its whitespace set is the ECMAScript WhiteSpace and LineTerminator characters. The contract is split: `Trim` states trimmed edges, and `TrimSlice` and `TrimCutsWhitespace` state the slice and the cut.
- Onboarding.NewUser: its contract states the key set only; the values are stated by `NewUserFields` and `NewUserRecord`.
- Dashboard.BarWidth: requires a positive target, as all three stat cards have (1200, 3, 100); a zero target is never passed.
- Dashboard.Template: its contract states the shape only; the calorie values are stated by `TemplateCalories`. The descriptions, times, ingredients and instructions of each meal are presentation and are left out.
- Dashboard.CompletedMeals: `completed` is a boolean here, while the source tests truthiness of any value. Template meals carry no `completed` key, which reads as false.
- Presentation-only files and the mock data in them are not part of this model: the landing pages, subscription pages, meal pages, meal card, page-level dashboard, Tailwind config and test setup. Neither is the meal-card test, which asserts on props the card does not have.
- The app shell's sidebar fallbacks (`user?.name || 'Demo User'`, the plan label) are display text and are left out.
- `Progress.jsx` "First Week Complete" is always earned and needs no model.

## Findings

| source | as written | input that shows it | evidently intended | confidence | as-written member | corrected member |
|---|---|---|---|---|---|---|
| src/components/Dashboard.jsx:128-131 | `mealTemplates[primaryGoal]` is a plain property read, so it also finds members inherited from `Object.prototype`; the key is then a function or the prototype, and `.reduce` on it throws | a saved profile whose first health goal is "Constructor" (or "__proto__") | only the object's own keys count, so any other goal falls back to 'weight-loss' | low: the questionnaire offers fixed labels, so only a stored profile reaches it; not executed | Dashboard.GoalKeyAsWritten, Dashboard.ConstructorGoalEscapesFallback | Dashboard.GoalKey |
| src/services/progressService.js:190-207 | the window and week starts are `new Date()` shifted by whole days, so they keep the time of day of the call, while `new Date(log.log_date)` of a `YYYY-MM-DD` date is midnight UTC; week i spans from its start instant to six days later | a call at any time other than exactly midnight UTC, and a log dated on the calendar day printed as a week's `weekStart` | each week covers its seven calendar days, so every log dated on one of the weeks' days lands in exactly that week | medium: date-only ISO strings parse as UTC by the language standard, and daylight-saving shifts are ignored; not executed | ProgressService.WeekLogsAsWritten, ProgressService.FirstDayDroppedAsWritten | ProgressService.WeeklySummaryComplete |
