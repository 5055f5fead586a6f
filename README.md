# Idea wall: state and views, in Dafny

This project models the logic of the idea wall, a shared board of short text
notes. It covers:

- the list of ideas that the `App` component keeps, and the two handlers that
  change it: `fetchIdeas` loads the whole list, and `handleSubmitIdea` puts a
  newly inserted idea on top of it;
- the `filteredIdeas` view, which combines a time window ("all", "today",
  "week") with a case-insensitive keyword search;
- `getStats`, the one-pass counters above the wall: total, today, this week,
  and the earliest creation time;
- `getDisplayName`, the label shown for the signed-in user.

Files:

- `text.dfy`: JavaScript's `trim`, `toLowerCase` and `includes`.
- `ideas.dfy`: the `Idea` record and the day boundaries.
- `filter.dfy`: the view filter.
- `board.dfy`: the component state as the class `IdeaBoard.Board`.
- `stats.dfy`: `getStats`, as a loop proved against a specification function.
- `display_name.dfy`: `getDisplayName`.

Conventions:

- Time is an integer count of milliseconds.
- `startOfToday` (local midnight) is a parameter.
- The start of the week window is `startOfToday - 6 * DAY`.
- Each async handler is split at its `await` into a Begin step and a Complete
  step. The Supabase response is the Complete step's parameter.
- `Fetch` and `Submit` run both steps back to back.

The code has no subscription and no deduplication: `handleSubmitIdea`
prepends whatever row the server returns (src/App.tsx:63). The model follows
the code. `IdeaBoard.ResubmittedRowIsListedTwice` shows that two rows with the
same id can end up in the list.

## Model

| member | source | states |
|---|---|---|
| Text.Trim | src/App.tsx:47-48 | `trim()` gives the empty string exactly when the input is all JavaScript whitespace; otherwise it is a slice of the input that starts and ends with non-whitespace, and only whitespace lies before and after that slice |
| Text.Lower | src/App.tsx:93-94 | `toLowerCase()` keeps the length, maps each character to its lower-case form and leaves no upper-case ASCII letter |
| Text.LowerIdempotent | src/App.tsx:93-94 | lower-casing an already lower-cased string changes nothing |
| Text.ContainsBasics | src/App.tsx:94 | `includes`: the empty needle is always found, a needle longer than the text never is, and a prefix is always found |
| IdeaFilter.FilteredIdeas | src/App.tsx:71-100 | `ideas.filter(...)` returns a list no longer than `ideas` whose every element comes from `ideas` (which elements pass is stated by `FilteredMembership`, and how many copies by `FilteredMultiplicity`) |
| IdeaModel.SevenDaysAgo | src/lib/getStats.ts:7-8 | the start of the week window lies before the start of today |
| IdeaFilter.FilteredIsSubsequence | src/App.tsx:71-100 | the filtered view is a subsequence of the list: nothing is added, repeated or reordered |
| IdeaFilter.FilteredMembership | src/App.tsx:71-100 | an idea is in the view if and only if it is in the list and passes both the window test and the keyword test |
| IdeaFilter.FilteredMultiplicity | src/App.tsx:71-100 | every copy of a passing idea is kept: the view holds a passing idea as many times as the list does, and a failing one not at all |
| IdeaFilter.FilteredAllBlankIsIdentity | src/App.tsx:82-99 | with filter "all" and a search that is empty or only whitespace, the view equals the whole list |
| IdeaFilter.FilteredWindows | src/App.tsx:74-88 | under "today" an idea is shown if and only if it was created at or after local midnight (and matches the search); under "week" the same holds with midnight six days earlier |
| IdeaFilter.TodayViewWithinWeekView | src/App.tsx:79-88 | the "today" view is a subsequence of the "week" view for the same search |
| IdeaFilter.FilteredMatchesSearch | src/App.tsx:92-96 | when the trimmed search is non-empty, every shown idea's lower-cased content contains the lower-cased, untrimmed search |
| IdeaFilter.UntrimmedSearchMatters | src/App.tsx:92-93 | matching uses the untrimmed search: " build" does not match the content "build", although "build" does |
| IdeaFilter.SearchIgnoresCase | src/App.tsx:93-94 | two searches that lower-case to the same string give the same view |
| IdeaFilter.FilterIdempotent | src/App.tsx:71-100 | filtering the view again with the same settings returns the same view |
| IdeaBoard.Board.constructor | src/App.tsx:12-19 | initial state: empty list, loading, not submitting, no error, empty draft, filter "all", empty search |
| IdeaBoard.Board.Visible | src/App.tsx:71-100 | the list on screen is a subsequence of the component's list |
| IdeaBoard.Board.EditDraft | src/App.tsx:113 | typing replaces the draft and changes nothing else |
| IdeaBoard.Board.SetView | src/App.tsx:124-126 | the filter pills and search box set the filter and search only |
| IdeaBoard.Board.BeginFetch | src/App.tsx:24-25 | starting a load sets loading and clears the error, and leaves the list alone |
| IdeaBoard.Board.CompleteFetch | src/App.tsx:32-39 | a successful load replaces the list wholesale with the data, or with the empty list when the data is null; a failed load keeps the list and sets the load error; loading ends either way |
| IdeaBoard.Board.Fetch | src/App.tsx:23-40 | a whole load: on success the list is the data (or empty) whatever it was before, and the error is cleared; on failure the list is kept and the load error is shown |
| IdeaBoard.Board.BeginSubmit | src/App.tsx:47-51 | a draft that trims to nothing sends nothing and changes nothing; otherwise the trimmed (non-empty) draft is sent, submitting is set and the error is cleared |
| IdeaBoard.Board.CompleteSubmit | src/App.tsx:59-67 | on success the returned idea is prepended and the draft cleared; on failure list and draft are kept and the submit error is set; submitting is false afterwards |
| IdeaBoard.Board.Submit | src/App.tsx:46-68 | a whole submit: a blank draft leaves list, draft, error and submitting untouched; success makes the list `[data] + old list` with an empty draft and no error; success without data keeps list and draft and leaves no error; failure keeps list and draft and sets the error |
| IdeaBoard.SubmittedIdeaHeadsView | src/App.tsx:63 | after a prepend the view is the new idea (if it passes the filter) followed by the old view |
| IdeaBoard.StatsAgreeWithViews | src/App.tsx:110 | with a blank search, `getStats`' total, week and today counts equal the sizes of the "all", "week" and "today" views |
| IdeaStats.GetStats | src/lib/getStats.ts:3-30 | the loop returns the total, the number of ideas since today's and the week's start, and the earliest creation time (null only for an empty list); `todayCount <= weekCount <= total` |
| IdeaStats.CountSinceAntitone | src/lib/getStats.ts:16-17 | a later threshold counts no more ideas, so the today count never exceeds the week count |
| IdeaStats.EarliestIsLeast | src/lib/getStats.ts:19-21 | the earliest creation time is the creation time of some idea and is at most every idea's creation time |
| IdeaStats.CountSincePermutation | src/lib/getStats.ts:14-18 | the counts depend only on the multiset of ideas, not on their order |
| IdeaStats.StatsPermutationInvariant | src/lib/getStats.ts:14-22 | any permutation of the list gives the same statistics |
| DisplayName.GetDisplayName | src/lib/getDisplayName.ts:3-7 | no user gives the empty label and every present user gives a non-empty one; a non-empty display name wins, then a non-empty e-mail, then the literal "未命名使用者" |

## Left out

- Rendering: the JSX presentation components and their button gating are not modelled.
- Network I/O: Supabase queries, inserts and authentication are not modelled. Their results are method parameters (`Response`).
- The local calendar: `new Date(y, m, d)`, `setDate(-6)`, time zones and daylight saving are not modelled. `startOfToday` is a parameter, and the week starts exactly `6 * DAY` earlier.
- The clock: `filteredIdeas` reads `new Date()` once per element. The model uses one fixed `startOfToday` for the whole view.
- Timestamp parsing: `created_at` strings are taken as already-parsed integers. Invalid dates (NaN comparisons) are not modelled.
- Text.Lower: lower-cases only the ASCII letters A-Z, not full Unicode `toLowerCase`.
- React scheduling: re-renders and interleavings of state updates are not modelled beyond the Begin/Complete split of each handler.
- `console.error` logging is not modelled.
- Columns not read by the core: author fields and other columns of an idea are not modelled.
- The live insert subscription and id-based deduplication are not modelled. They do not exist in the code.
