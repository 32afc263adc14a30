# Task, market and product views of a crypto dashboard, in Dafny

This project models the logic inside three React components of a dashboard
single-page application:

- **TaskManager** (`src/components/TaskManager.tsx`). It holds a list of task
  records in component state and offers these operations:
  - create and edit a task through a form, whose tag text is parsed into tags;
  - toggle a task between completed and not completed;
  - delete a task;
  - filter the list by a search term, a status and a priority;
  - count the completed, in-progress and overdue tasks, and compute the
    completion rate.

  The model is the class `TaskManager.TaskBoard`. It has one method per
  handler. The pure parts are functions beside the class: tag parsing, the
  list transformations, the filter predicate and the counts.
- **CryptoTracker** (`src/components/CryptoTracker.tsx`). It shows the asset
  list fetched from a market API, with these parts:
  - a watchlist toggled by star buttons;
  - a searched and sorted view of the list;
  - market statistics: total market cap, total volume, bitcoin's 24-hour
    change and bitcoin's dominance.

  The model is the class `CryptoTracker.Tracker`. The toggle, the search, the
  sort and the statistics are functions with lemmas.
- **ProductShowcase** (`src/components/ProductShowcase.tsx`). A fixed catalogue
  of six products is filtered by a search box and a category selector. The
  cart and wishlist buttons only raise a notification. Everything here is a
  pure function of the selector state.

Two further modules hold the JavaScript built-ins these components call:
- `Seqs` (`seqs.dfy`): `Array.prototype.filter`, `map`, `reduce` and `find`.
- `Text` (`text.dfy`): `toLowerCase`, `includes`, `trim`, `split` and `join`.

Modelling choices:
- JavaScript numbers are `real`, so they are exact and never NaN. The one
  exception is the dominance division, whose divisor can be 0. Its result is
  a `JsNumber`: finite, NaN or infinite.
- Dates are integers: milliseconds since the epoch, UTC.
- The current time and the id of a new task are parameters.
- `Array.prototype.sort` is modelled as a stable insertion sort under the
  component's comparator. ECMAScript requires that sort to be stable.

Two behaviours of the code are worth stating plainly, and the model follows
them:
- **Watchlist toggle.** Toggling an absent id twice restores the list
  (`ToggleAbsentTwice`). A second toggle of an id already in the list does
  not: the id moves to the end of the list (`TogglePresentTwice`). Only
  membership follows the parity of the toggles (`ToggleAllParity`).
- **Tags.** A task's tags are a list in input order, duplicates included, not
  a set.

## Model

| member | source | states |
|---|---|---|
| TaskManager.DayStart | src/components/TaskManager.tsx:181 | the date the edit form shows for a due date is the UTC midnight at or before it, less than a day earlier |
| TaskManager.ParseTags | src/components/TaskManager.tsx:136 | every parsed tag is non-empty, contains no comma and is its own trim |
| TaskManager.ParseTagsInOrder | src/components/TaskManager.tsx:136 | the parsed tags are the trimmed comma-separated pieces in input order: every non-empty trimmed piece is kept as often as it occurs, and only the empty ones are dropped |
| TaskManager.ParseTagsOfEmpty | src/components/TaskManager.tsx:136 | an empty tag field gives no tags |
| TaskManager.ParseTagsOfTag | src/components/TaskManager.tsx:136 | a single clean tag parses to itself |
| TaskManager.ParseTagsOfJoined | src/components/TaskManager.tsx:182 | parsing the ", "-joined tags that the edit form shows gives back the same tags when they are clean |
| TaskManager.WithEdited | src/components/TaskManager.tsx:139-144 | edit mode overwrites the six form fields of every task with the edited id, keeps its id and creation time, and leaves other tasks and the length unchanged |
| TaskManager.WithToggled | src/components/TaskManager.tsx:158-167 | for tasks with the id, completed becomes todo and any other status becomes completed; no other field, no other task and not the length changes |
| TaskManager.ToggleTwice | src/components/TaskManager.tsx:158-167 | toggling twice turns an in-progress task into todo; it restores the list exactly when no task with that id is in progress |
| TaskManager.WithoutTask | src/components/TaskManager.tsx:169-171 | delete keeps exactly the tasks with another id, each as often as before and in order, and changes nothing when no task has the id |
| TaskManager.FindTask | src/components/TaskManager.tsx:174 | `find` returns the first task with the id, or nothing exactly when no task has it |
| TaskManager.SaveUnchangedEdit | src/components/TaskManager.tsx:173-185 | saving the prefilled edit form unchanged gives the task back with clean tags, except that its due date moves to the start of its UTC day |
| TaskManager.VisibleTasks | src/components/TaskManager.tsx:92-115 | the shown tasks are an order-preserving subsequence of the list; each task that meets every active selector is kept as often as the list has it, and no other task is kept; with no search and both selectors "all" the list is shown whole |
| TaskManager.MatchesSearch | src/components/TaskManager.tsx:96-101 | the search predicate; `SearchIgnoresCase` and `EmptySearchMatches` state its meaning |
| TaskManager.Shown | src/components/TaskManager.tsx:96-112 | the conjunction of the active selectors; `VisibleTasks` and `TaskBoard.FilterTasks` state that it decides exactly what is shown |
| TaskManager.PrefillForm | src/components/TaskManager.tsx:175-182 | the form `handleEdit` fills in; `SaveUnchangedEdit` states that submitting it unchanged gives the task back, its due date at the start of its UTC day |
| TaskManager.SearchIgnoresCase | src/components/TaskManager.tsx:96-101 | a search term and its lower-case form select the same tasks |
| TaskManager.EmptySearchMatches | src/components/TaskManager.tsx:96-101 | every task matches the empty search term |
| TaskManager.GetTaskStats | src/components/TaskManager.tsx:187-194 | total is the list length; each other count is the number of tasks that are completed, in progress, or past due and not completed; completed + inProgress and overdue + completed are at most total |
| TaskManager.OverdueGrows | src/components/TaskManager.tsx:191 | the overdue count never decreases as time passes |
| TaskManager.CompletionRate | src/components/TaskManager.tsx:221 | the rate is 0 for no tasks, otherwise the percentage rounded to the nearest integer with halves up, and lies between 0 and 100 |
| TaskManager.SampleCompletedOnly | src/components/TaskManager.tsx:43-84 | on the sample tasks, the "completed" selector shows only task "3" |
| TaskManager.SampleTagsClean | src/components/TaskManager.tsx:43-84 | every sample tag is a clean tag |
| TaskManager.EditKeepsTagsClean | src/components/TaskManager.tsx:139-144 | an edit with clean tags keeps every tag of the list clean |
| TaskManager.AppendKeepsTagsClean | src/components/TaskManager.tsx:145-152 | appending a task with clean tags keeps every tag of the list clean |
| TaskManager.SubmitKeepsTagsClean | src/components/TaskManager.tsx:127-156 | a submission in either mode keeps every tag of the list clean |
| TaskManager.ToggleDeleteKeepTagsClean | src/components/TaskManager.tsx:158-171 | toggle and delete keep every tag of the list clean |
| TaskManager.TaskBoard.constructor | src/components/TaskManager.tsx:25-39 | the component starts with no tasks, no search, both selectors "all", an empty form and the dialog closed |
| TaskManager.TaskBoard.LoadSampleTasks | src/components/TaskManager.tsx:41-86 | the mount effect replaces the list with the four sample tasks and changes nothing else |
| TaskManager.TaskBoard.FilterTasks | src/components/TaskManager.tsx:92-115 | the three successive filters leave exactly the visible tasks in `filteredTasks`; nothing else changes |
| TaskManager.TaskBoard.SetSearchTerm | src/components/TaskManager.tsx:257 | the search box sets the search term |
| TaskManager.TaskBoard.SetFilterStatus | src/components/TaskManager.tsx:260 | the status selector sets the status filter |
| TaskManager.TaskBoard.SetFilterPriority | src/components/TaskManager.tsx:271 | the priority selector sets the priority filter |
| TaskManager.TaskBoard.SetForm | src/components/TaskManager.tsx:300-357 | the dialog's input handlers set the form's fields and nothing else |
| TaskManager.TaskBoard.ResetForm | src/components/TaskManager.tsx:117-125 | the form returns to its empty values and edit mode ends; the list is untouched |
| TaskManager.TaskBoard.StartEdit | src/components/TaskManager.tsx:173-185 | when a task has the id, the first one is being edited, the form shows its fields and the dialog opens; otherwise nothing changes |
| TaskManager.TaskBoard.Submit | src/components/TaskManager.tsx:127-156 | edit mode applies the edit (`WithEdited`) with the form's data (`FormData`) to the list, otherwise exactly one new task is appended; then the form is reset and the dialog closed, and the tags stay clean |
| TaskManager.TaskBoard.ToggleComplete | src/components/TaskManager.tsx:158-167 | the list becomes the toggled list and the tags stay clean |
| TaskManager.TaskBoard.Delete | src/components/TaskManager.tsx:169-171 | the list loses the tasks with the id and the tags stay clean |
| CryptoTracker.Toggle | src/components/CryptoTracker.tsx:88-94 | the watchlist update; `ToggleMembership`, `ToggleKeepsOthers`, `ToggleAbsentTwice`, `TogglePresentTwice` and `ToggleNoDup` state its meaning |
| CryptoTracker.ToggleMembership | src/components/CryptoTracker.tsx:88-94 | a toggle flips whether the id is watched and no other id's membership |
| CryptoTracker.ToggleKeepsOthers | src/components/CryptoTracker.tsx:88-94 | the other ids keep their order and number |
| CryptoTracker.ToggleAbsentTwice | src/components/CryptoTracker.tsx:89-93 | toggling an absent id twice restores the exact list |
| CryptoTracker.TogglePresentTwice | src/components/CryptoTracker.tsx:89-93 | toggling a present id twice removes its copies and appends it once |
| CryptoTracker.ToggleNoDup | src/components/CryptoTracker.tsx:89-93 | a duplicate-free watchlist stays duplicate-free |
| CryptoTracker.ToggleAllNoDup | src/components/CryptoTracker.tsx:88-94 | any sequence of toggles keeps a duplicate-free watchlist duplicate-free |
| CryptoTracker.ToggleAllParity | src/components/CryptoTracker.tsx:88-94 | after any sequence of toggles, an id is watched iff it started watched xor it was toggled an odd number of times |
| CryptoTracker.EmptySearchKeepsAll | src/components/CryptoTracker.tsx:70-74 | an empty search keeps every asset in order |
| CryptoTracker.CompareIsKeyDifference | src/components/CryptoTracker.tsx:75-86 | each comparator is the difference of one sort key, descending for change, price and market cap and ascending for rank |
| CryptoTracker.SortAssets | src/components/CryptoTracker.tsx:75-86 | the stable sort under the comparator; `SortAssetsPermutes`, `SortAssetsSorted` and `SortAssetsStable` state its meaning |
| CryptoTracker.SortAssetsPermutes | src/components/CryptoTracker.tsx:75-86 | the sorted list is a permutation of its input |
| CryptoTracker.SortAssetsSorted | src/components/CryptoTracker.tsx:75-86 | the sorted list is ordered by the comparator |
| CryptoTracker.SortAssetsStable | src/components/CryptoTracker.tsx:75-86 | assets with equal keys keep their relative order |
| CryptoTracker.SortedMeaning | src/components/CryptoTracker.tsx:75-86 | in the sorted view, change, price and market cap are non-increasing under their keys, and rank is non-decreasing under any other key |
| CryptoTracker.FilteredAssets | src/components/CryptoTracker.tsx:70-86 | the searched and sorted view; `FilteredAssetsCorrect` states its meaning |
| CryptoTracker.FilteredAssetsCorrect | src/components/CryptoTracker.tsx:70-86 | the view holds each matching asset as often as the list and nothing else, in comparator order; with an empty search it is a permutation of the list |
| CryptoTracker.Divide | src/components/CryptoTracker.tsx:61 | JavaScript division: finite exactly for a non-zero divisor, and then the value times the divisor is the dividend; NaN exactly for 0/0; otherwise an infinity with the dividend's sign |
| CryptoTracker.ComputeStats | src/components/CryptoTracker.tsx:53-62 | the statistics of a fetched list; `StatsOfEmpty`, `StatsWithoutBitcoin`, `StatsWithBitcoin`, `DominanceIsPercentage` and `TwoAssetMarket` state their meaning |
| CryptoTracker.StatsOfEmpty | src/components/CryptoTracker.tsx:53-62 | an empty list gives zero totals, zero change and zero dominance |
| CryptoTracker.StatsWithoutBitcoin | src/components/CryptoTracker.tsx:55-61 | without a bitcoin entry the change and the dominance are 0 |
| CryptoTracker.StatsWithBitcoin | src/components/CryptoTracker.tsx:55-61 | the first bitcoin entry supplies the change; the dominance is its cap over the total times 100, or NaN or infinite for a zero total |
| CryptoTracker.DominanceIsPercentage | src/components/CryptoTracker.tsx:53-61 | with non-negative caps and a bitcoin entry the dominance is between 0 and 100, or NaN when the total is 0 |
| CryptoTracker.TwoAssetMarket | src/components/CryptoTracker.tsx:53-62 | caps 1000 and 500 give a total of 1500 and a bitcoin dominance of 200/3 percent |
| CryptoTracker.Tracker.constructor | src/components/CryptoTracker.tsx:30-35 | the component starts with no data, no statistics, no search, rank order and an empty watchlist |
| CryptoTracker.Tracker.AddToWatchlist | src/components/CryptoTracker.tsx:88-94 | the watchlist becomes its toggle by the id and stays duplicate-free; nothing else changes |
| CryptoTracker.Tracker.Refresh | src/components/CryptoTracker.tsx:43-68 | a failed request changes nothing; a fetched list replaces the data, and its statistics replace the old ones |
| CryptoTracker.Tracker.SetSearchTerm | src/components/CryptoTracker.tsx:169 | the search box sets the search term |
| CryptoTracker.Tracker.SetSortBy | src/components/CryptoTracker.tsx:172 | the sort selector sets the sort key |
| CryptoTracker.Tracker.FilteredData | src/components/CryptoTracker.tsx:70-86 | the derived view holds exactly the matching assets, with multiplicity, in comparator order |
| ProductShowcase.CategoriesCoverProducts | src/components/ProductShowcase.tsx:41-114 | every product's category is one the selector offers, other than "all" |
| ProductShowcase.FilterCatalogue | src/components/ProductShowcase.tsx:132-136 | the shown products are an order-preserving subsequence of the catalogue; a product is shown iff its lower-cased name contains the lower-cased query and the category is "all" or its own, and then as often as the catalogue has it; an empty query with "all" shows the whole catalogue |
| ProductShowcase.FilteredProducts | src/components/ProductShowcase.tsx:132-136 | the filter over the fixed catalogue; `FilterCatalogue`, `ServicesIsEmpty` and `HardwareIsWallet` state its meaning |
| ProductShowcase.OpenSelectionShowsAll | src/components/ProductShowcase.tsx:133-135 | with an empty query and "all", every product passes the filter |
| ProductShowcase.SortByIgnored | src/components/ProductShowcase.tsx:36-38 | changing the sort choice changes neither what is shown nor its order |
| ProductShowcase.InitiallyAllShown | src/components/ProductShowcase.tsx:36-38 | the initial state shows the whole catalogue |
| ProductShowcase.NoProductInCategory | src/components/ProductShowcase.tsx:132-136 | a category no product has shows nothing |
| ProductShowcase.OneProductInCategory | src/components/ProductShowcase.tsx:132-136 | a category only one product has shows that product if its name matches, and nothing otherwise |
| ProductShowcase.ServicesIsEmpty | src/components/ProductShowcase.tsx:41-114 | the "services" category is empty for every query |
| ProductShowcase.HardwareIsWallet | src/components/ProductShowcase.tsx:41-114 | the "hardware" category shows only product "3", when its name matches the query |
| ProductShowcase.AddToCart | src/components/ProductShowcase.tsx:116-122 | the notification is "Added to Cart!" for three seconds and starts with the product's name; no state changes |
| ProductShowcase.AddToWishlist | src/components/ProductShowcase.tsx:124-130 | the notification is "Added to Wishlist" for two seconds and starts with the product's name; no state changes |
| Seqs.Filter | src/components/TaskManager.tsx:170 | `filter` keeps only accepted elements, is never longer than its input and keeps the input when every element is accepted |
| Seqs.FilterCounts | src/components/TaskManager.tsx:170 | `filter` keeps each accepted element as often as the input has it and drops every other element |
| Seqs.FilterIsSubsequence | src/components/ProductShowcase.tsx:132-136 | `filter` keeps the order of what it keeps |
| Seqs.FilterFilter | src/components/TaskManager.tsx:96-112 | filtering successively equals filtering once by the conjunction |
| Seqs.Map | src/components/TaskManager.tsx:159 | `map` keeps the length and applies the function at every position |
| Seqs.SumBy | src/components/CryptoTracker.tsx:53-54 | the `reduce` sum from 0 is 0 for an empty list and bounds each non-negative term |
| Seqs.SumByConcat | src/components/CryptoTracker.tsx:53-54 | the sum over a concatenation is the sum of the two sums |
| Seqs.Find | src/components/CryptoTracker.tsx:55 | `find` gives the first accepted element, or nothing exactly when none is accepted |
| Seqs.FilterNoDup | src/components/CryptoTracker.tsx:91 | filtering a duplicate-free list gives a duplicate-free list |
| Text.Lower | src/components/TaskManager.tsx:98-100 | lower-casing keeps the length, leaves no capital letter and changes only capitals, each to its lower-case letter |
| Text.LowerIdempotent | src/components/TaskManager.tsx:98-100 | lower-casing twice is lower-casing once |
| Text.Contains | src/components/ProductShowcase.tsx:133 | `includes`: the needle occurs at some position; `ContainsEmpty` states the empty case |
| Text.ContainsEmpty | src/components/ProductShowcase.tsx:133 | every string includes the empty string |
| Text.TrimStartSpec | src/components/TaskManager.tsx:136 | the leading-whitespace cut removes exactly the whitespace run at the start |
| Text.TrimEndSpec | src/components/TaskManager.tsx:136 | the trailing-whitespace cut removes exactly the whitespace run at the end |
| Text.Trim | src/components/TaskManager.tsx:136 | `trim` leaves no whitespace at either end |
| Text.TrimKeepsMiddle | src/components/TaskManager.tsx:136 | `trim` keeps the contiguous middle with only whitespace around it |
| Text.TrimSubset | src/components/TaskManager.tsx:136 | `trim` introduces no character |
| Text.TrimTrimmed | src/components/TaskManager.tsx:136 | a string without whitespace at its ends is its own trim |
| Text.Split | src/components/TaskManager.tsx:136 | `split` gives at least one piece and no piece holds the separator |
| Text.Join | src/components/TaskManager.tsx:182 | `join`; `JoinSplit` and `SplitJoin` state that it is the inverse of `split` |
| Text.JoinSplit | src/components/TaskManager.tsx:136 | joining the pieces of a split with the separator restores the string |
| Text.SplitJoin | src/components/TaskManager.tsx:182 | splitting separator-free pieces joined by the separator restores the pieces |

## Left out

- TaskManager.TaskBoard.Submit: requires a non-empty title and a due date. Both inputs are marked `required`, so the browser does not submit the form without them.
- The effect that re-runs `filterTasks` whenever the list, the search term or a selector changes is the separate method `FilterTasks`. The handlers leave `filteredTasks` as it was, and the component runs `FilterTasks` after them.
- The dialog's inputs are modelled by one handler, `SetForm`, that sets the whole form. Each input's own handler sets one field of it.
- The dialog's own open and close events and the Cancel button only set the dialog flag. They are not modelled.
- Date parsing and formatting (`new Date(dueDate)`, `toISOString`) are not modelled. A due date is an integer, and the date input's value is the UTC midnight of the chosen day.
- `Date.now().toString()` ids and `new Date()` timestamps are not generated. The new id and the current time are parameters of `Submit` and `GetTaskStats`.
- Text.Lower: maps only the ASCII capitals A-Z, because Unicode case mapping is not modelled.
- Arithmetic uses `real` with no IEEE rounding. For the one unguarded division it uses the three-way `JsNumber`.
- Number display (`formatLargeNumber`, `toFixed`, `toLocaleString`) is not modelled.
- `fetch` of the market API, the one-minute refresh timer and the `loading` flag are left out. `Refresh` takes the outcome of the request as a parameter.
- CryptoTracker.Tracker.Refresh: does not model a JSON response that is not an array of assets. In the source, such a response replaces the data and then fails when the statistics are computed.
- CryptoTracker.ComputeStats: a missing (null) 24-hour change is not modelled. The source's `|| 0` would turn it into 0.
- The toast system that shows the notifications is not modelled. `AddToCart` and `AddToWishlist` return the notification they raise.
- TaskCard.tsx, CryptoCard.tsx, the other components, the pages and the backend are not part of this model.
