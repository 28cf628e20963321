# Awards voting app: decision and tabulation logic in Dafny

This project models the logic inside seufirmino-awards, a small awards-voting
web application. Voters open a tokenized link and choose one nominee per
category. Results are revealed after a configured time. An admin dashboard
manages contests, categories and nominees, and shows tabulated results.

All persistence, authentication and storage belong to a hosted backend. The
model receives every backend reply as an input: `Ok(rows)` or `Err`
(`Wrappers.Fetch`). It also receives instants as integers: `now`, plus a
`timeOf` function that maps stored date strings to milliseconds. Each handler
returns the state it leaves behind. Where the order of requests matters, it
also returns the trace of requests it issued. That trace is how "no lookup
happens", "nothing is deleted before …" and "the reset order" are stated.

Modules follow the source files:

| module | source file |
|---|---|
| `Wrappers` | `Option`, `Fetch` |
| `Nullish` | JavaScript `""`/`null` truthiness, `s \|\| null`, `s ?? ""` |
| `Domain` | records of `src/types/domain.ts` |
| `Counting` | counting records built with `record[k] = (record[k] ?? 0) + 1`, sums, percentages |
| `Sorting` | a stable descending sort by an integer key (`Array.prototype.sort` with `b.x - a.x`) |
| `ResultsData` | `src/hooks/useResultsData.ts`, the public results aggregator |
| `ContestData` | `src/hooks/useContestData.ts`, the voter-link gate chain |
| `VoteCarousel` | `src/modules/public/vote/components/VoteCarousel.tsx`, the ballot state machine |
| `VoteProgress` | `src/modules/public/vote/components/VoteProgressBar.tsx` |
| `VotePage` | `src/modules/public/vote/VotePage.tsx` |
| `WinnerCarousel` | `src/components/results/WinnerCarousel.tsx` |
| `ResultsTable` | `src/components/results/ResultsTable.tsx` |
| `ResultsPage` | `src/modules/public/results/ResultsPage.tsx` |
| `AdminResults` | `src/modules/admin/ResultsTab.tsx` |
| `CategoriesNominees` | `src/modules/admin/CategoriesNomineesTab.tsx` |
| `ContestsTab` | `src/modules/admin/ContestsTab.tsx` |
| `AdminPage` | `src/pages/AdminPage.tsx` |

Two observed quirks are kept on purpose:

- When two nominees tie for first place, the second one is shown neither as the winner nor among the others (`WinnerCarousel.TiedWinnerHidden`).
- `resetNomineeForm` stores the selected contest id in the form's category field (`CategoriesNominees.ResetNomineeForm`).

## Model

| member | source | states |
|---|---|---|
| Nullish.OrNullOrEmpty | src/modules/admin/ContestsTab.tsx:52-59 | Converting null to `""` and then `""` back to null gives back exactly the null or non-empty strings; a stored `""` comes back as null |
| Nullish.OrEmptyOrNull | src/modules/admin/ContestsTab.tsx:85-95 | Converting `""` to null and then null back to `""` gives back every string |
| Counting.TallyCounts | src/hooks/useResultsData.ts:124-128 | The counting record's entry for an id equals the number of vote rows carrying that id; an id never voted reads 0 |
| Counting.TallyTotal | src/hooks/useResultsData.ts:130-133 | The sum of the record's values equals the number of vote rows |
| Counting.TallyKeys | src/hooks/useResultsData.ts:124-128 | The record's keys are distinct and are exactly the ids that occur in the votes |
| Counting.ListedCountsBound | src/hooks/useResultsData.ts:124-133 | Summed over distinct listed ids, the counts are at most the number of rows; they are equal when every row names a listed id |
| Counting.Percent | src/hooks/useResultsData.ts:137-138 | Percentage is 0 when the total is 0; otherwise percent·total = count·100; it is never negative and is at most 100 when count ≤ total |
| Sorting.SortDesc | src/components/results/WinnerCarousel.tsx:48-51 | The result is ordered by key, largest first, and is a permutation of the input |
| Sorting.SortDescStable | src/modules/admin/ResultsTab.tsx:109 | Elements with equal keys keep their input order (the sort is stable) |
| ResultsData.MaxVotes | src/hooks/useResultsData.ts:150-153 | The maximum bounds every nominee's count and is attained, or is 0 |
| ResultsData.TabulateCategory | src/hooks/useResultsData.ts:124-164 | Keeps the category and its nominees in order. Each count equals the reference count of its id. Each percent is that count's share of all the category's vote rows, within [0,100]. A nominee wins iff its count is positive and no count exceeds it |
| ResultsData.TabulateAll | src/hooks/useResultsData.ts:89-122 | Succeeds iff every nominee and vote fetch of every category succeeded, and then tabulates each category from its own fetches |
| ResultsData.Load | src/hooks/useResultsData.ts:52-172 | Never ends loading. A failed or empty contest lookup gives error. A missing or future reveal gives beforeReveal. Any later fetch failure gives error. Every non-ready outcome has no categories; ready happens iff every gate passed |
| ResultsData.ListedVotesWithinTotal | src/hooks/useResultsData.ts:124-133 | With distinct nominee ids, the listed counts sum to at most the category total; equal when every vote names a listed nominee |
| ResultsData.PercentagesSumTo100 | src/hooks/useResultsData.ts:130-138 | When every vote names a listed nominee and there are votes, the percentages sum to exactly 100 |
| ResultsData.SomeVoteSomeWinner | src/hooks/useResultsData.ts:150-158 | If any vote names a listed nominee, at least one nominee is a winner |
| ResultsData.NoVotesNoWinner | src/hooks/useResultsData.ts:150-158 | With no votes no nominee is a winner |
| ContestData.Load | src/hooks/useContestData.ts:32-165 | No token gives invalidLink with no lookup; otherwise the voter lookup comes first. Each status holds exactly under its gate precedence: voter error, no voter, inactive voter, contest error or missing, period with inclusive bounds ("not started" iff now < start), prior votes in the same contest, category and nominee fetches. No nominee query is made with no categories, and ready carries the fetched rows |
| ContestData.ContestFlagIgnored | src/hooks/useContestData.ts:63-102 | The contest's `is_active` flag never changes the outcome |
| VoteCarousel.Select | src/modules/public/vote/components/VoteCarousel.tsx:109 | Choosing a nominee changes only the selection |
| VoteCarousel.Confirm | src/modules/public/vote/components/VoteCarousel.tsx:34-58 | A no-op iff there is no current category or selection, or a save is running or finished. Otherwise it starts saving and inserts the vote for the current category, with contest, voter, selection and a null ip |
| VoteCarousel.Settle | src/modules/public/vote/components/VoteCarousel.tsx:60-75 | A failed insert gives error and keeps index and selection; success on the last category finishes; otherwise the index moves on and the selection clears |
| VoteCarousel.PressSaves | src/modules/public/vote/components/VoteCarousel.tsx:34-58 | Pressing confirm with a current category, a selection and no save running or finished starts saving and holds the vote row as pending |
| VoteCarousel.StepInv | src/modules/public/vote/components/VoteCarousel.tsx:26-76 | Each event keeps the ballot invariant, never moves the index back, and only appends to the written votes |
| VoteCarousel.RunInv | src/modules/public/vote/components/VoteCarousel.tsx:26-75 | Any event sequence from the start keeps the invariant: the written votes are exactly one per completed category, in category order |
| VoteCarousel.WrittenFollowCategories | src/modules/public/vote/components/VoteCarousel.tsx:26-87 | Written votes never outnumber the categories; the i-th is for category i; with zero categories nothing is written |
| VoteProgress.Progress | src/modules/public/vote/components/VoteProgressBar.tsx:7 | 0 when total ≤ 0; otherwise current/total·100 capped at 100; 100 once current ≥ total; never negative for current ≥ 0 |
| VoteProgress.ProgressMonotone | src/modules/public/vote/components/VoteProgressBar.tsx:7 | Progress never decreases as current grows |
| VoteProgress.StepProgress | src/modules/public/vote/components/VoteProgressBar.tsx:7 | On a ballot step progress is positive, at most 100, and 100 exactly on the last category |
| VotePage.GroupByCategory | src/modules/public/vote/VotePage.tsx:15-23 | Keys exist exactly for the category ids that occur; each group is that category's nominees in input order |
| VotePage.InCategoryMembers | src/modules/public/vote/VotePage.tsx:15-23 | A group holds exactly the nominees whose category id is its key |
| VotePage.GroupSizesSum | src/modules/public/vote/VotePage.tsx:16-22 | The group sizes sum to the number of nominees |
| VotePage.DismissKeeps | src/modules/public/vote/VotePage.tsx:89-91 | A toast remains after dismissing an id exactly when it was there and carries another id |
| VotePage.DismissCount | src/modules/public/vote/VotePage.tsx:89-91 | The list shrinks by exactly the number of toasts that carried the id |
| VotePage.DismissAbsent | src/modules/public/vote/VotePage.tsx:89-91 | Dismissing an id that no toast carries leaves the list unchanged |
| VotePage.DismissCommutes | src/modules/public/vote/VotePage.tsx:89-91 | Dismissing two ids in either order gives the same list |
| VotePage.DismissIdempotent | src/modules/public/vote/VotePage.tsx:89-91 | Dismissing the same id twice is the same as dismissing it once |
| VotePage.ReadyShowsBallot | src/modules/public/vote/VotePage.tsx:122 | The ballot renders exactly when the link load reached ready (which carries contest and voter) |
| WinnerCarousel.GetWinner | src/components/results/WinnerCarousel.tsx:8-10 | None iff no nominee is a winner; otherwise the first winner |
| WinnerCarousel.GetNonWinners | src/components/results/WinnerCarousel.tsx:12-15 | Keeps exactly the nominees whose id is no winner's id |
| WinnerCarousel.KeepOthersFilter | src/components/results/WinnerCarousel.tsx:14 | The filter keeps input order and multiplicity: it splits over concatenation, and a single nominee is kept exactly when its id is no winner's |
| WinnerCarousel.OrderedOthers | src/components/results/WinnerCarousel.tsx:48-51 | The others sorted by votes, most first, as a permutation of the non-winners |
| WinnerCarousel.TiedWinnerHidden | src/components/results/WinnerCarousel.tsx:8-15 | With two winners, the later one is neither the shown winner nor among the others |
| WinnerCarousel.Next | src/components/results/WinnerCarousel.tsx:32-35 | A no-op with no slides; otherwise moves to the following slide, wrapping from the last to 0, and stays below the total |
| WinnerCarousel.Prev | src/components/results/WinnerCarousel.tsx:37-40 | A no-op with no slides; otherwise moves to the preceding slide, wrapping from 0 to the last, and stays below the total |
| WinnerCarousel.NextPrevInverse | src/components/results/WinnerCarousel.tsx:32-40 | Next and previous undo each other on every valid index |
| WinnerCarousel.ResetIndex | src/components/results/WinnerCarousel.tsx:26-30 | An index at or past a non-zero total returns to 0; any other is kept |
| WinnerCarousel.ResetShowsSlide | src/components/results/WinnerCarousel.tsx:24-44 | With at least one category, the reset index always has a slide to render, so the carousel never renders nothing |
| WinnerCarousel.Render | src/components/results/WinnerCarousel.tsx:42-51 | Nothing renders past the last slide; otherwise the slide shows the category, its winner and its ordered others |
| ResultsTable.Featured | src/components/results/ResultsTable.tsx:36-39 | The first winner when one exists, else the first nominee, else nothing |
| ResultsTable.Row | src/components/results/ResultsTable.tsx:46-57 | With no nominees the row reads "Sem votos", 0 and 0%; otherwise it shows the featured nominee's (first winner, else first nominee) name, votes and percent |
| ResultsTable.Rows | src/components/results/ResultsTable.tsx:35-60 | One row per category, in input order |
| ResultsTable.RowShowsTopCount | src/components/results/ResultsTable.tsx:36-38 | On a tabulated category the shown votes are at least every nominee's count |
| ResultsPage.Decimal | src/modules/public/results/ResultsPage.tsx:102-106 | `String(n)` is non-empty digits, one digit iff n < 10, two for 10 ≤ n < 100 |
| ResultsPage.PadTwo | src/modules/public/results/ResultsPage.tsx:102-106 | Left-pads with "0" to at least two characters and keeps the original as the suffix |
| ResultsPage.PaddedRoundTrip | src/modules/public/results/ResultsPage.tsx:102-106 | A padded field reads back as the number it shows |
| ResultsPage.SplitDiff | src/modules/public/results/ResultsPage.tsx:98-100 | Minutes and seconds are below 60, and hours·3600 + minutes·60 + seconds equals the whole seconds in the difference |
| ResultsPage.Countdown | src/modules/public/results/ResultsPage.tsx:83-106 | Null iff there is no reveal date; "00:00:00" once the reveal is not in the future |
| ResultsPage.CountdownReadsBack | src/modules/public/results/ResultsPage.tsx:98-106 | A running countdown parses back to fields that hold the remaining whole seconds, with minutes and seconds below 60 |
| ResultsPage.CountdownWidth | src/modules/public/results/ResultsPage.tsx:98-106 | A running countdown is at least eight characters, every field padded to two digits |
| ResultsPage.NextPhrase | src/modules/public/results/ResultsPage.tsx:54 | The phrase index advances by one and wraps to 0 after the third |
| ResultsPage.Final | src/modules/public/results/ResultsPage.tsx:122-126 | `demo=true` forces ready with the demo contest and categories; otherwise the loaded view is kept |
| ResultsPage.Show | src/modules/public/results/ResultsPage.tsx:158-203 | In demo mode only the results panel shows; otherwise results iff ready with a contest, the reveal notice iff beforeReveal with a contest; never both |
| ResultsPage.NoResultsBeforeReveal | src/modules/public/results/ResultsPage.tsx:61-68 | Outside demo mode, while the reveal is withheld the notice shows and the results do not |
| AdminResults.NestedTallyInner | src/modules/admin/ResultsTab.tsx:78-85 | A category's nominee record is the plain count record of the nominees voted for in that category |
| AdminResults.CellCount | src/modules/admin/ResultsTab.tsx:78-85 | `voteCounts[c][n] ?? 0` equals the number of vote rows with that category and nominee |
| AdminResults.CategoryTotal | src/modules/admin/ResultsTab.tsx:93-96 | A category's total is every vote row under that category, whether or not its nominee is listed |
| AdminResults.UnsortedRows | src/modules/admin/ResultsTab.tsx:89-108 | One row per nominee of the category, with the category and nominee names, the pair count, and its share of the category total |
| AdminResults.CategoryRowsSpec | src/modules/admin/ResultsTab.tsx:97-111 | A category's group has exactly its nominees' rows, ordered by votes with the most first, with ties in nominee order |
| AdminResults.TableRows | src/modules/admin/ResultsTab.tsx:87-111 | The table is the groups in category order; its length is the number of nominees per listed category, summed |
| AdminResults.OneRowPerNominee | src/modules/admin/ResultsTab.tsx:56-60 | With distinct categories and nominees from those categories, there is exactly one row per nominee |
| AdminResults.AgreesWithPublic | src/modules/admin/ResultsTab.tsx:78-108 | Each admin row's votes and percent equal the public aggregator's for the same nominee |
| AdminResults.LoadResults | src/modules/admin/ResultsTab.tsx:29-114 | An empty contest id clears rows with no request. Requests are categories, then nominees, then votes. Each failure keeps the rows and sets its message. No categories gives no rows. Success gives the table |
| CategoriesNominees.LoadLists | src/modules/admin/CategoriesNomineesTab.tsx:74-112 | Changes only the lists and the message. No contest clears both with no request. A category failure keeps both. Categories are stored before the nominee request, which is skipped with no categories. A nominee failure keeps the old nominees |
| CategoriesNominees.CategoryPayloadOf | src/modules/admin/CategoriesNomineesTab.tsx:161-166 | Sends the selected contest, the name, the order, and the description with `""` as null |
| CategoriesNominees.EditCategory | src/modules/admin/CategoriesNomineesTab.tsx:192-199 | The form carries the category's id, name and order, and its description with null as `""` |
| CategoriesNominees.SaveCategory | src/modules/admin/CategoriesNomineesTab.tsx:153-190 | No selected contest means an error and no request. An id means update, otherwise insert. A failure keeps the form with its message. Success reloads the lists and clears the form |
| CategoriesNominees.EditThenSaveCategory | src/modules/admin/CategoriesNomineesTab.tsx:161-199 | Saving an edited category unchanged updates that row with its own fields |
| CategoriesNominees.TrimStart | src/modules/admin/CategoriesNomineesTab.tsx:338 | Drops exactly the leading white space |
| CategoriesNominees.TrimEnd | src/modules/admin/CategoriesNomineesTab.tsx:338 | Drops exactly the trailing white space |
| CategoriesNominees.BlankIffAllSpace | src/modules/admin/CategoriesNomineesTab.tsx:338 | A name trims to `""` iff every character is white space |
| CategoriesNominees.ValidateNominee | src/modules/admin/CategoriesNomineesTab.tsx:329-345 | Checks in order: category, cap (new nominees only, at 6 or more loaded), blank name, NaN order. It passes iff all hold |
| CategoriesNominees.EditsNeverCapped | src/modules/admin/CategoriesNomineesTab.tsx:333-337 | An edit is never refused for the cap |
| CategoriesNominees.CapPreserved | src/modules/admin/CategoriesNomineesTab.tsx:333-337 | A new nominee passes only below six, so adding it leaves at most six in its category and the others unchanged |
| CategoriesNominees.OpenNomineeModal | src/modules/admin/CategoriesNomineesTab.tsx:130-146 | Opens with the nominee's fields (nulls as `""`) or an empty form for the category; clears the file and message |
| CategoriesNominees.AddButtonMatchesCap | src/modules/admin/CategoriesNomineesTab.tsx:645-659 | The add button is enabled iff a fresh form for that category would pass the cap |
| CategoriesNominees.ResetNomineeForm | src/modules/admin/CategoriesNomineesTab.tsx:125-128 | Empties the form except that its category field becomes the selected contest id |
| CategoriesNominees.CloseNomineeModal | src/modules/admin/CategoriesNomineesTab.tsx:148-151 | Closes the modal and resets the form |
| CategoriesNominees.NomineePayloadOf | src/modules/admin/CategoriesNomineesTab.tsx:370-376 | Sends the category, name and numeric order; the description with `""` as null; the chosen image URL |
| CategoriesNominees.ImageUrlToSave | src/modules/admin/CategoriesNomineesTab.tsx:349-368 | The uploaded file's public URL when there is one, else the typed URL or null |
| CategoriesNominees.WriteNominee | src/modules/admin/CategoriesNomineesTab.tsx:378-400 | An id means update, otherwise insert. A failure keeps the form. Success reloads, resets the form and closes the modal |
| CategoriesNominees.SaveNominee | src/modules/admin/CategoriesNomineesTab.tsx:328-401 | A failed check sets its message with no request. A failed upload stops before the write. Otherwise the write follows |
| CategoriesNominees.SaveNomineeOrder | src/modules/admin/CategoriesNomineesTab.tsx:328-401 | No request precedes a failed check; the upload comes first; a successful save leaves the contest id in the form's category field |
| CategoriesNominees.ResetCalls | src/modules/admin/CategoriesNomineesTab.tsx:226-267 | The complete order: load ids, votes, voters, nominees only when there are ids, categories |
| CategoriesNominees.ResetRequests | src/modules/admin/CategoriesNomineesTab.tsx:226-273 | Each checked failure stops with its message after its own request; the voters outcome is not consulted; success reloads when the reset contest is the selected one |
| CategoriesNominees.ResetContest | src/modules/admin/CategoriesNomineesTab.tsx:206-221 | Switched off, or no contest chosen: its message and no request. A declined prompt: nothing at all. Otherwise the reset requests run with the message cleared |
| CategoriesNominees.ResetOutcome | src/modules/admin/CategoriesNomineesTab.tsx:206-273 | Reports success iff the gates pass and the id load and the votes, nominees (when there are ids) and categories deletes succeeded; the voters delete is not among the conditions |
| CategoriesNominees.ResetOrder | src/modules/admin/CategoriesNomineesTab.tsx:226-267 | A failed reset issued a prefix of the complete order; a successful one all of it |
| CategoriesNominees.ResetButtonsMatchGates | src/modules/admin/CategoriesNomineesTab.tsx:567-574 | The buttons are enabled iff pressing reset and accepting reaches the backend |
| CategoriesNominees.Fallback | src/modules/admin/CategoriesNomineesTab.tsx:314 | The first remaining contest id, or `""` |
| CategoriesNominees.AfterDelete | src/modules/admin/CategoriesNomineesTab.tsx:308-324 | Lists the remaining contests and points the reset selector at the fallback. The selected contest follows only if it was the deleted one, and then the lists are reloaded or cleared |
| CategoriesNominees.DeleteContest | src/modules/admin/CategoriesNomineesTab.tsx:276-326 | Same gates as reset, plus its own prompt. The reset runs first; the contest row is deleted only after it succeeds; a failed delete sets its message |
| CategoriesNominees.DeleteOnlyAfterReset | src/modules/admin/CategoriesNomineesTab.tsx:292-306 | A contest delete request appears iff the gates passed and the reset succeeded |
| CategoriesNominees.NoDeleteInReset | src/modules/admin/CategoriesNomineesTab.tsx:206-273 | A reset never issues a contest delete |
| ContestsTab.Payload | src/modules/admin/ContestsTab.tsx:52-59 | Empty description and date fields become null and non-empty ones are kept; name and active flag are copied; nothing is validated |
| ContestsTab.Edit | src/modules/admin/ContestsTab.tsx:85-95 | The form carries the contest's fields, with null description and reveal date as `""` |
| ContestsTab.EditPayloadRoundTrip | src/modules/admin/ContestsTab.tsx:52-59 | For non-empty dates and a null or non-empty description and reveal date, editing then saving reproduces the stored fields |
| ContestsTab.PayloadEditRoundTrip | src/modules/admin/ContestsTab.tsx:85-95 | Filling the form from its own payload gives the form back |
| ContestsTab.Save | src/modules/admin/ContestsTab.tsx:48-83 | An id means update, otherwise insert, with no validation. A failure keeps the form with its message. Success relists and resets to the blank active form |
| ContestsTab.EditThenSave | src/modules/admin/ContestsTab.tsx:48-95 | Saving an edited stored contest updates that row with its own fields |
| AdminPage.Describe | src/pages/AdminPage.tsx:35 | The error's message, or its string rendering when the message is null |
| AdminPage.LoadSession | src/pages/AdminPage.tsx:23-67 | Never ends loading. A missing session gives login with the user kept. Any other auth error gives error with its message. No user gives login with the user cleared. A signed-in user is stored and looked up: lookup error gives error, no profile gives notAdmin, a profile gives ready |
| AdminPage.Logout | src/pages/AdminPage.tsx:73-78 | Always login, with no user and no message |
| AdminPage.TabsOnlyForAdmins | src/pages/AdminPage.tsx:136-167 | The tabs show iff a signed-in user has an admin profile, and never after logout |
| AdminPage.MessageOnlyOnError | src/pages/AdminPage.tsx:24-66 | An error message is held exactly in the error state |

## Left out

- Backend requests, authentication, storage upload and public-URL lookup are inputs. The server-side `order(...)` is taken as the order of the given sequence.
- In the admin tabs and the ballot loader, a reply with null data and no error is treated as an empty sequence (`data ?? []`), and a null vote list in the results hook counts as no votes. The results hook treats a null category or nominee list as an error (`src/hooks/useResultsData.ts:83`, `:102`), so there it is folded into `Err`.
- Sort orders are integers (`Num = Finite(int) | NaN` on the forms). The source stores a JavaScript number, and `Number(...)` on the form input can give a fraction. No decision in the modelled code depends on the fractional part.
- Date parsing is left out: `new Date(...)`, `toLocaleString`, `Date.now` and invalid-date NaN comparisons. Dates are strings mapped to integers by the `timeOf` input.
- Floating point and display rounding (`toFixed(1)`, `formatPercent`) are left out. Percentages are exact reals.
- Timers and randomness are left out: toast scheduling, jitter and auto-dismiss; the opening animation; the `setInterval` ticks (each tick is one `Countdown` evaluation); and random token and file names.
- The `isMounted` cancellation flags and the check-then-insert duplicate-vote race are left out. They are concurrency concerns.
- The in-progress flags are left out: `isSaving…`, `isResetting`, `isDeletingContest` and `isLoading` while a request is pending. They only matter between an await and its reply.
- `ResetButtonsEnabled` leaves out the `isResetting`/`isDeletingContest` part of the disabled condition for the same reason.
- The `loadContests` list fetches are left out. They select the first contest when none is selected.
- `handleDeleteCategory` and `handleDeleteNominee` are left out. Each is one delete followed by the list reload modelled in `LoadLists`.
- Tab switching in the admin page and the header's e-mail display are left out.
- `VotersTab` and `AdminLogin` are not part of this model. They are thin CRUD, clipboard access and a single sign-in call.
- The purely presentational components are not part of this model: opening animation, cards, buttons and error notices.
- VoteCarousel.Settle: requires a running save on an existing category. The source only reaches this code after `Confirm` started an insert. The `Step` machine calls it only in that state.
- ResultsPage.SplitDiff: uses integer division on the positive difference. The source uses `Math.floor` of a real quotient, and `Math.floor((x / d) % 60)`, which are equal for positive operands.
- CategoriesNominees.ValidateNominee: counts the cap over the nominees currently loaded. A stale list, from a concurrent admin session, is not modelled.

## Differences between the code and its description

The written description says that every reset step's failure aborts the remaining steps. The code ignores the outcome of the voters delete (`CategoriesNomineesTab.tsx:245`). The model follows the code: its backend has no input for the voters delete's outcome, the request still appears in the call trace (`CategoriesNominees.ResetCalls`), and `CategoriesNominees.ResetOutcome` lists the conditions for success without it.

The description calls the link outcome "five-state" but names six statuses. The code has those six (`invalidLink`, `inactiveLink`, `outOfPeriod`, `alreadyVoted`, `ready`, `error`) plus the initial `loading`. The model uses the code's statuses (`ContestData.LinkStatus`).
