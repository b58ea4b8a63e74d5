# TourFlow core in Dafny

TourFlow lets a signed-in user build product tours. A tour is an ordered list of steps. The user can:

- create tours with at least five steps;
- add, edit, delete and reorder steps;
- switch a tour between active and inactive;
- read analytics about how visitors move through the tour.

This project models the logic behind those features as pure functions over immutable data and proves properties of that model.

- **Data access** (`lib/supabase.ts`). Each database function is a function from a store to an `Outcome`, which pairs the new store with a result or an error. The store holds the `tours` table as a map and the `tour_steps` table as a sequence of rows. A database statement becomes a map, a filter or an append. Each statement whose failure the source ignores or reacts to is controlled by a fault flag. The central invariant is `TourStore.Coherent`: for every tour, the steps are numbered `1..N` and the cached `total_steps` is `N`. The lemmas show which operations keep it. Where an operation can break it, a lemma names the input that does so.
- **Dashboards** (`lib/services/analyticsService.ts`, `lib/services/dashboard.service.ts`). These are folds over query results that arrive as inputs:
  - counts and percentages per weekday and per step;
  - status counts;
  - the dashboard totals;
  - the most recent tours;
  - the per-step averages and their fixed fallback series.
- **Client state** (`components/...`, `app/auth/signup/page.tsx`). This covers:
  - how the tour details panel patches its copy of a tour after a step is added, edited or deleted;
  - the create-tour form and the step dialogs;
  - the status toggle and delete handler of a tour card;
  - the five-slide demo walkthrough;
  - the sidebar's name and e-mail helpers;
  - the signup password checks.

Modules, one per file:

| module | file |
|---|---|
| `Wrappers` | `wrappers.dfy` |
| `Text` | `text.dfy` |
| `Sorting` | `sorting.dfy` |
| `TourTypes` | `tour_types.dfy` |
| `StepRows` | `step_rows.dfy` |
| `TourStore` | `tour_store.dfy` |
| `TourStoreProps` | `tour_store_props.dfy` |
| `RenumberProps` | `renumber_props.dfy` |
| `Analytics` | `analytics.dfy` |
| `DashboardService` | `dashboard.dfy` |
| `TourDetails` | `tour_details.dfy` |
| `CreateTourForm` | `create_tour_form.dfy` |
| `StepDialogs` | `step_dialogs.dfy` |
| `TourCard` | `tour_card.dfy` |
| `DemoTour` | `demo_tour.dfy` |
| `Sidebar` | `sidebar.dfy` |
| `Signup` | `signup.dfy` |

`Sorting.SortByKey` models JavaScript's stable `Array.prototype.sort` with a comparator of the form `(a, b) => a.k - b.k`. A missing key makes the comparator return `NaN`, which the sort treats as "equal". So a list in which no element has the key comes back unchanged.

Where the written descriptions of the system and the code disagree, the model follows the code:

- `createTour` stores the capitalised default status `"Inactive"` (`lib/supabase.ts:40`). That is not one of the two record values. The first status toggle therefore turns it into `"active"`, and two toggles give `"inactive"` rather than the original value (`TourCard.ToggleTwiceNormalises`).
- `deleteTour` reports success when the owner check matches no tour. It deletes nothing in that case (`TourStore.DeleteTour`).
- The steps table has a `step_order` column, not `step_number`. This has two consequences:
  - The tour details panel sorts by a missing key, so it shows the stored order (`TourDetails.Displayed`).
  - The dashboard's average-performance query selects and orders by `step_number`. Against the real schema that query fails, and the function returns its fallback series. The model takes the query's outcome as an input (`None` for the failure), so both the fallback and the grouping logic are covered.
- `updateStep` in the create-tour form throws when the index is out of range. This happens before any state changes, so the model leaves the form as it was.

## Model

| member | source | states |
|---|---|---|
| TourStore.StatusOrDefault | lib/supabase.ts:40 | an absent or empty status becomes the literal "Inactive"; any other status is kept |
| TourStore.CreateTour | lib/supabase.ts:30-75 | a failed tour insert changes nothing. Success needs no steps or a successful step insert. The new tour gets the next id, `total_steps` equal to the number of supplied steps, and rows numbered 1..N in input order with completion 0. A failed step insert adds no rows, and the tour is removed unless the rollback delete also fails |
| TourStoreProps.CreateTourKeepsCoherent | lib/supabase.ts:30-75 | from a coherent store, createTour leaves a coherent store unless both the step insert and the rollback fail |
| TourStoreProps.CreateTourStrandsOnRollbackFailure | lib/supabase.ts:63-67 | when the step insert and the rollback both fail, an error is returned. The new tour remains, claiming N steps while owning none, so the store is not coherent |
| TourStore.NextStepOrder | lib/supabase.ts:233-244 | the next order is 1 for a tour without rows; otherwise it is one more than the highest existing order, and above every existing order |
| TourStore.AddStepToTour | lib/supabase.ts:216-277 | a non-owner, or an ownership query that fails, gets "Tour not found or unauthorized" and the store is unchanged; a failed insert changes nothing. The call succeeds exactly when the check passes and the insert does not fail. Otherwise one row is appended with the next order, completion 0 and the supplied text. `total_steps` becomes the previously cached value plus one unless that update fails |
| TourStoreProps.AddStepKeepsCoherent | lib/supabase.ts:233-270 | on a coherent store the owner's add succeeds, gets order N+1, and keeps every tour's orders 1..N and count in step |
| TourStore.UpdateStep | lib/supabase.ts:297-331 | a non-owner or a failed ownership query gets the unauthorized error, and a failed statement gets a database error; neither changes anything. Otherwise the update always applies: exactly the rows matching both the step id and the tour id change, and only in the supplied fields; tours and all other rows are untouched. The call succeeds exactly when the owner's statement does not fail and one row matched, and then returns that row updated |
| TourStoreProps.UpdateStepKeepsCoherent | lib/supabase.ts:314-323 | updating a step's text never breaks coherence, whatever the outcome |
| TourStore.TourSteps | lib/supabase.ts:280-294 | the reload returns exactly the tour's rows, in ascending step order |
| TourStore.DeleteStep | lib/supabase.ts:334-385 | a non-owner or a failed ownership query gets the unauthorized error, and a failed delete a database error; neither changes anything. The call succeeds exactly otherwise: the matching row is removed and `total_steps` becomes max(0, cached − 1), unless that update fails. The tour's remaining rows are then renumbered 1..M in their reloaded order, unless the reload fails |
| RenumberProps.DeleteStepKeepsCoherent | lib/supabase.ts:351-378 | deleting one of a tour's own steps from a coherent store lowers its row count by one and leaves the store coherent |
| RenumberProps.DeleteMissingStepDrifts | lib/supabase.ts:352-367 | deleting an id the tour does not have still decrements `total_steps`, so the cached count ends one below the actual count and coherence is lost |
| RenumberProps.DeleteStepKeepsRelativeOrder | lib/supabase.ts:369-378 | renumbering after a delete keeps the relative order of the surviving steps |
| RenumberProps.RenumberKeepsRelativeOrder | lib/supabase.ts:370-377 | assigning orders 1..M by position in the sorted reload keeps every pair of steps in the same order |
| TourStore.ReorderSteps | lib/supabase.ts:388-421 | a non-owner or a failed ownership query gets the unauthorized error and the store is unchanged. The call succeeds exactly otherwise, and then each row of the tour whose id is listed gets 1 + its last position in the list; every other row and every tour is unchanged |
| RenumberProps.ReorderPermutationKeepsCoherent | lib/supabase.ts:404-414 | when the list is a permutation of the tour's step ids, the reorder succeeds, gives each step its list position + 1 and keeps the store coherent |
| RenumberProps.ReorderOmissionBreaksContiguity | lib/supabase.ts:404-414 | when the list leaves out one step whose order is below N, order N is missing afterwards and the store is no longer coherent |
| TourStore.UpdateTour | lib/supabase.ts:140-163 | succeeds exactly for the owner without a failure; then only the supplied fields of that one tour change. Otherwise the store is unchanged |
| TourStoreProps.UpdateTourKeepsCoherent | lib/supabase.ts:146-155 | a metadata update never breaks coherence |
| TourStore.UpdateTourStatus | lib/supabase.ts:188-211 | succeeds exactly for the owner without a failure and then changes only that tour's status |
| TourStore.DeleteTour | lib/supabase.ts:166-185 | a failed statement gives an error; otherwise the call reports success. A non-owner changes nothing. For the owner, the tour and exactly its rows are removed |
| TourStoreProps.DeleteTourCascades | lib/supabase.ts:166-185 | after an owner's delete the tour has no rows left, and the store stays coherent |
| TourStore.UpdateStepCompletionRate | lib/supabase.ts:424-445 | a failed statement changes nothing. Otherwise every row with the id gets the new rate, with no owner check, and tours and other rows are unchanged. The call succeeds exactly when one row has the id, and it returns that row with the new rate. The rate is any number, not only an integer |
| TourStoreProps.CompletionRateKeepsCoherent | lib/supabase.ts:429-437 | changing a completion rate never breaks coherence |
| Sorting.SortByKey | lib/services/dashboard.service.ts:143 | the sort returns a permutation of its input; with every key present it is ascending; with no key present it is the input itself |
| Text.BlankIffAllWhitespace | components/dashboard/CreateTourDialog.tsx:83-89 | a string is blank after `trim()` exactly when every character is whitespace |
| Analytics.Select | lib/services/analyticsService.ts:59-72 | an event is fetched exactly when it belongs to one of the user's tours and has one of the requested types |
| Analytics.RoundPercent | lib/services/analyticsService.ts:75-83 | the percentage is `Math.round(100·part/whole)`: the integer within one half of the exact ratio, with halves rounded up |
| Analytics.GetAnalyticsMetrics | lib/services/analyticsService.ts:40-94 | no tours or an exception give the zero metrics; otherwise the views are the rows of the starts query and the completion rate is the rounded percentage of the rows of the separate completions query, or 0 without views; a query returning `null` counts as no rows |
| Analytics.NullCompletionsRateZero | lib/services/analyticsService.ts:68-75 | starts returned with a `null` completions result report the starts with a completion rate of 0 |
| Analytics.CompletionRateBounded | lib/services/analyticsService.ts:75-83 | the completion rate is at most 100 when completions do not exceed views, and exactly 100 when they are equal and nonzero |
| Analytics.DayIndex | lib/services/analyticsService.ts:122-144 | the k-th entry of the Monday-first list is the weekday `getDay()` names (k + 1) mod 7 |
| Analytics.TallyByWeekday | lib/services/analyticsService.ts:133-137 | the seven counters hold, for each weekday, the number of events on that day |
| Analytics.GetWeeklyData | lib/services/analyticsService.ts:97-149 | no tours or an exception give []; otherwise seven entries Mon..Sun, each counting the last week's tour starts on that day, and the entries sum to the number of those starts |
| Analytics.WeekTotalCounts | lib/services/analyticsService.ts:133-137 | each event lands in exactly one weekday bucket, so the seven counts add up to the number of events |
| Analytics.MaxSteps | lib/services/analyticsService.ts:164 | the maximum is at least every tour's `total_steps || 0` and equal to one of them |
| Analytics.ChartLength | lib/services/analyticsService.ts:189 | the number of loop iterations: at most 5, every i in 1..n passes `i <= Math.min(maxSteps, 5)`, and n + 1 fails it |
| Analytics.StepLabel | lib/services/analyticsService.ts:191 | the label of step i is "Step " followed by its digit |
| Analytics.TallySteps | lib/services/analyticsService.ts:172-185 | the counter for step number k is the number of events whose metadata is an object holding the integer stepIndex k − 1 |
| Analytics.IgnoredEventsDoNotCount | lib/services/analyticsService.ts:176-184 | an event without object metadata or without a numeric stepIndex adds to no step's count |
| Analytics.GetStepPerformance | lib/services/analyticsService.ts:152-201 | no tours or an exception give []; otherwise min(maxSteps, 5) entries "Step 1".."Step k", each counting the step's views and completions, and together at most the number of fetched events |
| Analytics.SumBucketsBounded | lib/services/analyticsService.ts:175-194 | an event counts towards at most one step, so the step counts together never exceed the events fetched |
| Analytics.GetTourStatus | lib/services/analyticsService.ts:204-226 | no tours or an exception give []; otherwise exactly two entries, active then inactive, with their colours, counting exact matches, and summing to at most the number of tours |
| Analytics.CountStatusDisjoint | lib/services/analyticsService.ts:215-216 | two different statuses together count at most the number of tours |
| Analytics.TallySkips | lib/services/analyticsService.ts:253-268 | views count only step_viewed events and skips only step_skipped events, each at the step their stepIndex names |
| Analytics.SkipPercent | lib/services/analyticsService.ts:272-280 | the skip rate is the rounded percentage of skips among views + skips, 0 when both are zero, and never above 100 |
| Analytics.GetSkipRates | lib/services/analyticsService.ts:229-289 | no tours or an exception give []; otherwise min(maxSteps, 5) entries, each holding the skip percentage of its step, in [0, 100] |
| DashboardService.SumSteps | lib/services/dashboard.service.ts:45 | the loop's sum equals the reference sum of every tour's `total_steps`, with missing values counted as 0 |
| DashboardService.TotalStepsAppend | lib/services/dashboard.service.ts:45 | the step total splits over concatenated tour lists |
| DashboardService.GetDashboardStats | lib/services/dashboard.service.ts:24-71 | an exception gives all zeros; otherwise missing counts become 0 and totalSteps is the sum of the tours' counts |
| DashboardService.SortNewest | lib/services/dashboard.service.ts:80 | the query ordering returns the same tours with non-increasing creation times |
| DashboardService.GetRecentTours | lib/services/dashboard.service.ts:74-90 | an error gives []. Otherwise the result has min(limit, tour count) tours, where limit defaults to 3. They are drawn from the user's tours, newest first, and no tour left out is newer than one returned |
| DashboardService.TopIsNewest | lib/services/dashboard.service.ts:80-81 | the first k tours of a newest-first list are the k newest |
| DashboardService.GroupByStep | lib/services/dashboard.service.ts:122-129 | the grouping has one group per distinct step number, holding exactly that number's rates in row order |
| DashboardService.RatesForOccurs | lib/services/dashboard.service.ts:124-129 | a step number has rates exactly when it occurs in the rows |
| DashboardService.RoundCents | lib/services/dashboard.service.ts:139 | `Math.round(x·100)/100`: the value within half a cent of x, with half cents rounded up |
| DashboardService.Averages | lib/services/dashboard.service.ts:134-141 | one entry per group, holding its step number and the rounded mean of its rates |
| DashboardService.SortedGroupsSummarise | lib/services/dashboard.service.ts:134-143 | after sorting, the averages are strictly ascending by step number, cover exactly the step numbers of the rows, and each holds the rounded mean of that number's rates |
| DashboardService.GetAverageStepPerformance | lib/services/dashboard.service.ts:93-164 | no tours, a failed query or no rows give the fixed five-entry sample; otherwise exactly one entry per distinct step number, ascending, with its rounded mean of that number's rates, which may be any numbers |
| DashboardService.AverageInRange | lib/services/dashboard.service.ts:136-139 | when every rate lies in [lo, hi], each rounded average lies within half a cent of that range |
| TourDetails.AfterAdd | components/dashboard/TourDetails.tsx:40-65 | an error or an empty reply leaves the tour alone. Otherwise the steps become the old steps plus the returned one, and `total_steps` is the new length, with everything else kept |
| TourDetails.AfterEdit | components/dashboard/TourDetails.tsx:101-112 | an error or an empty reply leaves the tour alone; otherwise exactly the steps with the edited id are replaced, and the count and everything else are kept |
| TourDetails.AfterDelete | components/dashboard/TourDetails.tsx:124-143 | the tour is updated only when the service reports success; then every step with the id is removed and `total_steps` is the remaining count |
| TourDetails.DeleteRemovesId | components/dashboard/TourDetails.tsx:133-135 | after a delete a step is present exactly when it was present before and has another id |
| TourDetails.AddThenDelete | components/dashboard/TourDetails.tsx:53-143 | deleting a step just added under a fresh id restores the step list, and the whole tour when its count matched |
| TourDetails.Displayed | components/dashboard/TourDetails.tsx:149-151 | sorting by the absent `step_number` leaves the steps in their stored order |
| TourDetails.DialogTotal | components/dashboard/TourDetails.tsx:213-220 | the delete dialog receives the number of displayed steps, which is `total_steps` when the count matches |
| CreateTourForm.CompleteStepsMembers | components/dashboard/CreateTourDialog.tsx:91-93 | a draft is kept by the filter exactly when it is in the form and both its fields are non-blank |
| CreateTourForm.StepsMessage | components/dashboard/CreateTourDialog.tsx:96-100 | the message reads "You need k more complete step(s) (minimum 5 required)", with the plural exactly when k > 1 |
| CreateTourForm.Validate | components/dashboard/CreateTourDialog.tsx:80-105 | a blank name, a blank description and fewer than five complete steps each give their message, and only they do |
| CreateTourForm.IsValidIff | components/dashboard/CreateTourDialog.tsx:103-104 | the form is valid exactly when name and description are non-blank and at least five steps are complete |
| CreateTourForm.AddStep | components/dashboard/CreateTourDialog.tsx:51-57 | one blank draft is appended, the steps message is cleared and the complete count is unchanged |
| CreateTourForm.RemoveStep | components/dashboard/CreateTourDialog.tsx:59-63 | with more than one draft, exactly the indexed draft goes; the last remaining draft is never removed |
| CreateTourForm.AddThenRemove | components/dashboard/CreateTourDialog.tsx:51-63 | removing the draft just added restores the drafts |
| CreateTourForm.UpdateStep | components/dashboard/CreateTourDialog.tsx:65-78 | exactly one field of the indexed draft changes and the steps message is cleared; nothing else changes |
| CreateTourForm.Payload | components/dashboard/CreateTourDialog.tsx:118-132 | the submitted tour has the trimmed name and description, the chosen status, and the complete drafts numbered 1..N with `steps` = N |
| CreateTourForm.PayloadStepsTrimmed | components/dashboard/CreateTourDialog.tsx:118-124 | every submitted step has non-blank, already trimmed text |
| CreateTourForm.Submit | components/dashboard/CreateTourDialog.tsx:107-155 | an invalid form only records its messages and hands nothing over; a valid one hands over the payload. When `onCreateTour` returns, the form is reset and closed. When it throws, the input and the open dialog are kept, the messages stay cleared and submitting ends |
| CreateTourForm.RetryAfterFailure | components/dashboard/CreateTourDialog.tsx:107-155 | after `onCreateTour` throws, submitting again hands over the same tour |
| CreateTourForm.SubmittedHasFiveSteps | components/dashboard/CreateTourDialog.tsx:107-134 | whatever is handed over has at least five steps |
| CreateTourForm.Cancel | components/dashboard/CreateTourDialog.tsx:157-177 | with entered data an unconfirmed cancel keeps the form; otherwise the form is reset to empty name and description, one blank draft, status "Active", no errors, and closed, and it then holds no data |
| CreateTourForm.CancelUntouched | components/dashboard/CreateTourDialog.tsx:157-177 | a form whose fields and drafts hold only whitespace resets on cancel without asking for confirmation |
| CreateTourForm.CreateDisabled | components/dashboard/CreateTourDialog.tsx:437 | the Create button is disabled exactly while validation would report missing steps or a submit is in progress, so an enabled button implies at least five complete steps |
| CreateTourForm.Progress | components/dashboard/CreateTourDialog.tsx:179-183 | the progress is non-negative and reaches 100 exactly at five complete steps |
| CreateTourForm.EnabledStepsValid | components/dashboard/CreateTourDialog.tsx:437 | when the button is enabled, only name or description can still fail validation |
| StepDialogs.ValidateStep | components/dashboard/StepDialogs.tsx:57-70 | a blank title or description gives its message, and only then |
| StepDialogs.AddSubmit | components/dashboard/StepDialogs.tsx:72-90 | a step is sent exactly when both fields are non-blank; it holds the trimmed text and the form resets. Otherwise only the messages change |
| StepDialogs.AddSentIsClean | components/dashboard/StepDialogs.tsx:78-81 | what an add sends is non-blank and already trimmed |
| StepDialogs.AddCancel | components/dashboard/StepDialogs.tsx:92-106 | an unconfirmed cancel of a form with text keeps it; otherwise the form resets |
| StepDialogs.EditSubmit | components/dashboard/StepDialogs.tsx:252-281 | a valid edit sends the original step with only title and description replaced by their trimmed values, clears the messages and closes; an invalid one records one message per blank field and sends nothing |
| StepDialogs.EditCancel | components/dashboard/StepDialogs.tsx:283-289 | cancel restores the step's text, clears the messages and closes |
| StepDialogs.CancelThenSaveIsIdentity | components/dashboard/StepDialogs.tsx:267-289 | saving straight after a cancel sends a clean step back unchanged |
| StepDialogs.CanDelete | components/dashboard/StepDialogs.tsx:417 | deletion is offered exactly when the tour has more than five steps |
| StepDialogs.DeleteKeepsMinimum | components/dashboard/StepDialogs.tsx:417-426 | a delete the dialog allows leaves the tour with at least five steps when ids are distinct |
| TourCard.Toggled | components/dashboard/TourCard.tsx:194 | exactly "active" becomes "inactive"; anything else becomes "active" |
| TourCard.ToggleTwice | components/dashboard/TourCard.tsx:194 | two toggles restore "active" or "inactive" |
| TourCard.ToggleTwiceNormalises | components/dashboard/TourCard.tsx:194 | any other status, such as "Inactive", becomes "inactive" after two toggles |
| TourCard.StoreToggleTwice | components/dashboard/TourCard.tsx:192-204 | two successful toggles through the store give back the original store |
| TourCard.AfterDelete | components/dashboard/TourCard.tsx:162-190 | the busy flag and dialog are cleared; the list refreshes only on success, and the selection is cleared exactly when the deleted tour was selected |
| TourCard.AfterStatusToggle | components/dashboard/TourCard.tsx:192-212 | the busy flag and dialog are cleared, the list refreshes only on success, and the selection is untouched |
| TourCard.SelectionStaysValid | components/dashboard/TourCard.tsx:176-181 | a selection naming a stored tour still names one after the card's delete |
| DemoTour.Next | components/DemoTourModal.tsx:48-54 | before the last slide Next moves one on; on the last it closes and rewinds to 0; the position stays a valid slide |
| DemoTour.Back | components/DemoTourModal.tsx:56-60 | Back moves one back only above 0 and keeps the position valid |
| DemoTour.Close | components/DemoTourModal.tsx:62-65 | closing rewinds to the first slide and notifies the parent |
| DemoTour.BackUndoesNext | components/DemoTourModal.tsx:48-60 | Back undoes a Next that did not close |
| DemoTour.NextUndoesBack | components/DemoTourModal.tsx:48-60 | Next undoes a Back that moved |
| DemoTour.WalkThrough | components/DemoTourModal.tsx:46-65 | from any slide, Next presses walk forward without closing until the last slide, and one more closes |
| DemoTour.TitlesIdentifySlides | components/DemoTourModal.tsx:17-43 | no two slides share a title, so the title shown determines the current slide |
| DemoTour.Progress | components/DemoTourModal.tsx:67 | progress is positive and reaches 100 exactly on the last slide |
| DemoTour.ProgressIncreases | components/DemoTourModal.tsx:67 | each Next that does not close adds 20 to the progress |
| DemoTour.NextLabel | components/DemoTourModal.tsx:164 | the button reads "Finish" exactly on the last slide, "Next" elsewhere |
| DemoTour.BackDisabled | components/DemoTourModal.tsx:149 | Back is disabled exactly on the first slide, where it would do nothing |
| Sidebar.Initials | components/dashboard/SIdebar.tsx:47-50 | one character: "U" without an e-mail, otherwise the first character upper-cased |
| Sidebar.LocalPart | components/dashboard/SIdebar.tsx:55 | `split("@")[0]` is the longest prefix without "@", and it is the whole string exactly when there is no "@" |
| Sidebar.LocalPartOfAddress | components/dashboard/SIdebar.tsx:53-56 | the display name of "local@domain" is "local" |
| Sidebar.DisplayName | components/dashboard/SIdebar.tsx:53-56 | "User" without an e-mail, otherwise the text before the first "@" |
| Sidebar.TruncatedEmail | components/dashboard/SIdebar.tsx:59-65 | a placeholder without an e-mail; over 20 characters, the first 20 plus "..."; otherwise the e-mail itself; never more than 23 characters |
| Sidebar.AtMostOneActive | components/dashboard/SIdebar.tsx:25-31 | since the menu's hrefs differ, at most one entry is active for any path |
| Sidebar.TourPageInactive | components/dashboard/SIdebar.tsx:83 | the active match is exact, so a tour's own page under "/dashboard/tours/" highlights no entry |
| Signup.HandleSignup | app/auth/signup/page.tsx:19-37 | signUp is attempted exactly when the passwords match and have at least 6 characters. A mismatch or a short password shows its toast and clears loading |
| Signup.MismatchReportedFirst | app/auth/signup/page.tsx:23-37 | a mismatched short password reports the mismatch, not the length |
| Signup.AfterSignUp | app/auth/signup/page.tsx:39-60 | a failed signUp shows "Signup failed" and clears loading; success leaves the page loading until the redirect |

## Left out

- The Supabase client, authentication, the network and `getCurrentUser`/`signOut` (`lib/supabase.ts:1-18`) are left out, because they are library calls. Query results and their failures are inputs or fault flags instead.
- The read-only queries `getUserTours`, `getUserToursWithSteps` and `getTourById` are not operations of the model. Their results appear only as inputs to the dashboards.
- `updated_at` timestamps and the clock are not modelled. For an analytics event, its weekday and whether it falls within the last seven days are inputs. `created_at` is an abstract integer instant.
- `TourStore.DeleteStep` and `TourStore.ReorderSteps` issue one update per row in a loop. A failure of a single update, and interleaving with other clients, are not modelled; the loop runs to completion.
- `TourStore.UpdateStep` writes only title and description. `UpdateStepInput.step_number` names a column the table does not have; the database would reject it.
- The `target_element` field that the tour details panel passes along is not modelled.
- `String(t.id)` in the analytics `in('tour_id', ...)` filters is modelled as a comparison of integer ids.
- `DashboardService.RoundCents` and `DashboardService.Averages` compute exactly over reals rather than in IEEE doubles, so floating-point error in the sums, the division and the scaling by 100 is not modelled.
- `Analytics.RoundPercent` and `Analytics.SkipPercent` round the exact rational percentage half up, while the source rounds the double `part / whole * 100`. The two can differ near a half: `29 / 200 * 100` is `14.499999999999998` in doubles, so `Math.round` gives 14, whereas `RoundPercent(29, 200)` and `SkipPercent(171, 29)` are 15.
- `TourStore.UpdateStepCompletionRate` and `DashboardService.GetAverageStepPerformance` take completion rates as exact reals. The JavaScript `number` values `NaN` and the infinities are not modelled.
- `Analytics.GetStepPerformance` takes each event's `stepIndex` as integer, non-integer, non-number or missing, and abstracts a non-integer number as counting towards no step. In IEEE doubles `stepIndex + 1` can round onto a key (`0.9999999999999999 + 1 === 2`, `1e-17 + 1 === 1`), so the source can count such an event where the model does not. Modelling that would need double-precision addition.
- `Analytics.GetSkipRates` applies the same abstraction of non-integer `stepIndex` values, for the same reason.
- `Analytics.TallySteps` counts only integer `stepIndex` values. An event whose fractional index rounds onto a key in double precision is not counted.
- `Analytics.TallySkips` counts only integer `stepIndex` values, as `Analytics.TallySteps` does.
- `Analytics.IgnoredEventsDoNotCount` treats every non-integer number as ignored. The source ignores only those that do not round onto a key in double precision.
- `DashboardService.GetDashboardStats` has a single failure flag for the whole function. The `profiles` count error that is only logged is modelled as a missing count.
- `DashboardService.GetRecentTours` takes a non-negative limit. A negative `limit(...)` has database-defined meaning.
- `Sidebar.Initials` upper-cases ASCII letters only. JavaScript's full Unicode `toUpperCase` is not modelled.
- `Sidebar.TruncatedEmail`, `Signup.HandleSignup` and `Sidebar.Initials` measure strings in characters, not in UTF-16 code units. JavaScript's `length` and `substring` count a character outside the Basic Multilingual Plane as two, so for such strings the 20-character cut and the 6-character password minimum differ from the source.
- `TourStore.TourSteps` and `DashboardService.SortNewest` break ties between equal keys by table order. PostgreSQL's `ORDER BY` leaves that order unspecified. Their contracts promise only the same rows in key order, but `TourStore.DeleteStep` renumbers a tour whose orders repeat by this one tie order. A coherent tour has no repeated orders.
- `window.confirm` is the `confirmed` parameter of `CreateTourForm.Cancel` and `StepDialogs.AddCancel`.
- Toasts are modelled only as the titles of the signup page's error toasts (`Signup.Page.toast`). Their descriptions, the other components' toasts, alerts, console logging and rendering are not modelled.
- `TourStore.DeleteTour` assumes the schema deletes a tour's steps by cascade. The source only deletes the tour row and relies on a cascade "if set up".
- The demo slides' descriptions are not modelled, because only their titles are shown as state.
- The signup redirect timer and the auth store update after a successful signup are not modelled.
