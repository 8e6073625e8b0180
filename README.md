# Motus client core in Dafny

Motus is a word-guessing game (a Wordle variant). A round draws a target word
for the chosen difficulty and reveals its first letter. The player types guesses
of the target's length that keep that first letter. Each guess is scored letter
by letter as correct (right letter, right place), present (in the word elsewhere)
or absent. The round ends on a correct guess or when the attempts run out.

This project models the client's core logic:

- `types.dfy` (module `Types`): the shared value types. These are letter verdicts,
  difficulties, screens, users and leaderboard entries.
- `evaluator.dfy` (module `Evaluator`): the two-pass guess evaluator.
  - `Evaluate` keeps the source's arrays and loops. It is proved equal to
    `Evaluation`, a functional statement of the same two passes.
  - The scoring properties are proved about `Evaluation`. Each verdict is
    justified. Duplicate letters are counted exactly: per letter, the number of
    correct or present marks is the smaller of its counts in the guess and in
    the target.
- `board.dfy` (module `Board`): the game board.
  - The difficulty table and the word pool.
  - Input filtering.
  - Guess submission, with its two validation errors and its win/loss
    bookkeeping.
  - The new-game reset.
  - `GameBoard` is a class whose methods update its fields in place.
  - Two predicates describe a sound board. `Valid` says every stored row of
    verdicts is the evaluation of its attempt. `RoundConsistent` relates the
    win/loss flags to the attempts.
- `app.dfy` (module `App`): the top-level page.
  - The screen state machine, its handlers and the render gates.
  - `Dispatch` runs any handler that the rendered children can reach. It
    preserves the rule that a logged-out visitor only sees the home screen.
- `ranking.dfy` (module `Ranking`): the leaderboard.
  - The sorts are specified as stable descending sorts. The model's insertion
    sort is proved sorted, a permutation and stable. It is also proved to be
    the only sequence with those properties, so it matches the browser's
    stable `Array.prototype.sort` whatever algorithm that uses.
  - Also modelled: the current user's lookup, the category views, ranks,
    badges and display values.

Two behaviours of the code are worth knowing:

- The evaluator accepts a guess and a target of different lengths. Past the
  end of the target, `targetLetters[i]` is `undefined` and never matches, so
  such positions are never exact matches. `Exact` models this.
- On guess `AABB` against target `ABAX` the code gives
  `[correct, present, present, absent]`. Position 0 is an exact `A`. The second
  `A` takes the target's `A` at position 2, the first `B` takes the target's
  `B`, and the last `B` finds nothing. `ExampleRepeatedLetters` proves this.

## Model

| member | source | states |
|---|---|---|
| Evaluator.Evaluate | components/game-board.tsx:185-215 | The array-based two-pass evaluator returns exactly `Evaluation(guess, target)`: one verdict per guess letter, never `unknown`, and `correct` exactly at the exact-position matches. |
| Evaluator.MarkExactMatches | components/game-board.tsx:194-201 | The first pass leaves the verdict array and both marker arrays equal to the first-pass state: the exact matches are `correct` and consume their target position and their guess position; everything else is still `absent`. |
| Evaluator.MarkPresentLetters | components/game-board.tsx:203-215 | The second pass, with its inner search that stops at the first unused equal target letter, leaves the verdict array equal to `Evaluation`. |
| Evaluator.PassTwoUpTo | components/game-board.tsx:194-215 | The evaluator's state after the first pass (`PassOne`) and then one second-pass step (`Step`) per guess position up to `k`: one verdict per guess position and one marker per target position. `Evaluation` is its verdicts after every position, the reference `Evaluate` is proved equal to and that the `Evaluation…` lemmas describe. |
| Evaluator.FreeFrom | components/game-board.tsx:207-213 | The inner search stops at the leftmost unused target position holding the letter, or at the end of the target when there is none. |
| Evaluator.StepAt | components/game-board.tsx:207-213 | One second-pass step is fixed by where the search stops: at a free equal letter, it marks the guess position `present` and consumes that target position; at the end, nothing changes. |
| Evaluator.EvaluationVerdicts | components/game-board.tsx:188-215 | Every guess position gets `correct`, `present` or `absent`, and `correct` exactly where guess and target agree at that position. |
| Evaluator.EvaluationPresent | components/game-board.tsx:203-215 | A `present` letter is not an exact match, and the same letter stands at another target position that is not itself an exact match. |
| Evaluator.EvaluationLeftmost | components/game-board.tsx:204-213 | Repeated guess letters are served left to right: if a later copy of a letter is `present`, every earlier copy that is not an exact match is `present` too. |
| Evaluator.EvaluationCounts | components/game-board.tsx:185-215 | For every letter, the count of guess positions holding it that are `correct` or `present` is the minimum of its counts in the guess and in the target. |
| Evaluator.EvaluationAbsent | components/game-board.tsx:203-215 | An `absent` letter has all copies of it in the target already matched by other guess positions. |
| Evaluator.EvaluationOfTarget | components/game-board.tsx:194-201 | Guessing the target itself scores all `correct`. |
| Evaluator.EvaluationDisjoint | components/game-board.tsx:203-215 | A guess sharing no letter with the target scores all `absent`. |
| Evaluator.ExampleRepeatedLetters | components/game-board.tsx:185-215 | `AABB` against `ABAX` scores `[correct, present, present, absent]`. |
| Evaluator.ExampleLlama | components/game-board.tsx:185-215 | `LLAMA` against `ALARM` scores `[absent, correct, correct, present, present]`. |
| Evaluator.TallyBound | components/game-board.tsx:203-215 | The marked copies of a letter never outnumber its occurrences, and they equal them when every copy is marked. |
| Board.DifficultyConfig | components/game-board.tsx:36-40 | Each level up from easy adds one letter and takes away one attempt, starting from four letters in six attempts. |
| Board.HarderMeansLongerAndFewer | components/game-board.tsx:36-40 | A harder difficulty has a strictly longer word and strictly fewer attempts. |
| Board.WordsPool | components/game-board.tsx:90-112 | Each difficulty has five pool words. Each has the difficulty's word length and begins with its one-letter first letter. |
| Board.ToUpper | components/game-board.tsx:241 | Upper-casing keeps the length, maps each ASCII lower-case letter to its upper-case form, and leaves every other character unchanged. |
| Board.ToUpperIdempotent | components/game-board.tsx:241 | Upper-casing twice is the same as upper-casing once. |
| Board.GameBoard.constructor | components/game-board.tsx:43-52 | The board starts empty, not over, without error, and initializing. |
| Board.GameBoard.StartNewGame | components/game-board.tsx:77-147 | The reset clears attempts, verdicts, win and game-over. It takes the picked pool word as the target and its first letter as the initial guess. A failed response read leaves target and first letter, empties the guess and sets the network error. The board ends `Valid` and round-consistent. |
| Board.GameBoard.SubmitGuess | components/game-board.tsx:149-238 | A guess of the wrong length sets the length error. A guess without the first letter sets the first-letter error. Either way, nothing else changes. An accepted guess is appended with its `Evaluation` and the error is cleared. The round is won on a match, lost when the attempts reach the maximum, and otherwise unchanged. The guess returns to the first letter. `Valid` and round consistency are preserved. |
| Board.GameBoard.InputChange | components/game-board.tsx:240-246 | The upper-cased value is taken, and the error cleared, only if it fits the word length and keeps the first letter. Otherwise nothing changes. A guess that fits and keeps the first letter stays so. |
| Board.GameBoard.KeyPress | components/game-board.tsx:248-255 | Enter submits only a full-length guess. Any other key, or Enter on a short guess, changes nothing. Submitting a full-length guess without the first letter sets the first-letter error and changes nothing else. An accepted guess is appended with its `Evaluation` and the error is cleared. The round is won or lost as on submit, and the guess returns to the first letter. `Valid` and round consistency are preserved. |
| Board.GameBoard.WinShowsAllCorrect | components/game-board.tsx:183-230 | A won round's last row of verdicts is all `correct`. |
| App.Home.constructor | app/page.tsx:20-24 | The page starts logged out, on the home screen, with easy difficulty and no pending login request. |
| App.Home.Rendered | app/page.tsx:151-159 | The home page shows exactly when the screen is home. Dashboard, game board and leaderboard show only to a logged-in user, and the game board gets the selected difficulty. Nothing shows exactly when the screen is not home and no one is logged in. |
| App.Home.HandleLogin | app/page.tsx:74-82 | Logging in records the user and clears the login request. It moves to the dashboard only if "Play now" had requested the login. |
| App.Home.HandleLogout | app/page.tsx:84-89 | Logging out clears the user and the login request and returns to the home screen. |
| App.Home.HandlePlayNow | app/page.tsx:91-98 | With a user, "Play now" opens the dashboard. Without one, it only requests the login panel. |
| App.Home.HandleStartGame | app/page.tsx:100-103 | Starting a game records the difficulty and shows the game board. |
| App.Home.HandleBackToDashboard | app/page.tsx:105-107 | Going back shows the dashboard. |
| App.Home.HandleBackToHome | app/page.tsx:109-111 | Shows the home screen. |
| App.Home.HandleShowLeaderboard | app/page.tsx:113-115 | Shows the leaderboard screen. |
| App.Home.HandleLoginPanelClose | app/page.tsx:117-119 | Closing the login panel clears only the login request. |
| App.Home.HandleNavigateHome | app/page.tsx:121-123 | Shows the home screen. |
| App.Home.HandleNavigateLeaderboard | app/page.tsx:125-129 | Shows the leaderboard only with a user. Otherwise nothing changes. |
| App.Home.Dispatch | app/page.tsx:141-159 | Every handler wired to a rendered child (navigation bar, login panel, home page, dashboard, game board, leaderboard) keeps a logged-out visitor on the home screen. |
| Ranking.SortDescending | components/leaderboard.tsx:184 | The sort's result is ordered non-increasing by the key, is a permutation of its input, and keeps the input order among equal keys. |
| Ranking.InsertSorted | components/leaderboard.tsx:184 | Proof step for the reference sort `SortDescending`; `Insert` models no code of its own. Inserting into a sorted sequence keeps it sorted. |
| Ranking.InsertPermutes | components/leaderboard.tsx:184 | Proof step for the reference sort `SortDescending`. Inserting adds exactly the one entry. |
| Ranking.InsertKeepsKeyOrder | components/leaderboard.tsx:184 | Proof step for the reference sort `SortDescending`. Inserting places the entry ahead of the entries with its key and keeps each key's entries in order. |
| Ranking.SortedIsDeterminedByKeys | components/leaderboard.tsx:184 | Two sorted sequences with the same entries per key, in the same order, are equal. |
| Ranking.StableSortIsSortDescending | components/leaderboard.tsx:184 | Any stable descending sort of the input yields exactly `SortDescending`. |
| Ranking.SortingSortedIsIdentity | components/leaderboard.tsx:223-233 | Re-sorting an already sorted sequence changes nothing. |
| Ranking.SortedView | components/leaderboard.tsx:223-233 | The overall tab shows the stored data itself. Each mode tab shows a stable, descending permutation by that mode's win count. |
| Ranking.SortedViewIsSorted | components/leaderboard.tsx:223-233 | Over stored data sorted by total score, every tab is sorted by its own key and equals the stable sort by that key. |
| Ranking.FindByUsername | components/leaderboard.tsx:188-189 | The lookup finds nothing exactly when no entry has the username. Otherwise it returns the first entry with that username. |
| Ranking.RankBadgeVariant | components/leaderboard.tsx:210-221 | The badge is `default` exactly for rank 1, `secondary` exactly for rank 2, and `outline` for every other rank. |
| Ranking.GetDisplayValue | components/leaderboard.tsx:236-247 | The figure shown is the tab's ranking key. It is in points exactly on the overall tab and in wins on the mode tabs. |
| Ranking.Rows | components/leaderboard.tsx:346-348 | Row `i` has rank `i + 1`, the rank's badge, the tab's display value, and is flagged as the current user exactly when its username is the user's. |
| Ranking.RowsRanked | components/leaderboard.tsx:346-387 | On every tab, the displayed figures never increase down the ranking. Only the first row has the `default` badge, and only the second the `secondary` one. |
| Ranking.Leaderboard.constructor | components/leaderboard.tsx:37-40 | The leaderboard starts empty, loading, on the overall tab, with no user statistics. |
| Ranking.Leaderboard.FetchLeaderboardData | components/leaderboard.tsx:46-195 | A fetched list is stored as its stable descending sort by total score. The user statistics are the first stored entry with the user's name. A failed read leaves both as they were. Loading ends either way. |
| Ranking.Leaderboard.SelectCategory | components/leaderboard.tsx:308-331 | Selecting a tab records it. |
| Ranking.Leaderboard.GetSortedData | components/leaderboard.tsx:223-233 | The tab's entries are a permutation of the stored data, equal to it on the overall tab. They are sorted by the tab's key whenever the stored data is sorted by score. |

## Left out

- Network calls, `localStorage` and the authentication check at startup (`checkAuthStatus`) are outside the model. A new word's response read is the `responseOk` parameter of `StartNewGame`. A leaderboard response is the `response` parameter of `FetchLeaderboardData`, with `None` for a read that throws.
- `Math.random` in `startNewGame` becomes the `pick` parameter, any index into the word pool.
- The network-error branch of `handleSubmitGuess` is not modelled. Its fetch falls back to a mock response on failure. Apart from a `localStorage` access that fails, nothing in that `try` block throws; `localStorage` is outside the model.
- The `isLoading` flags of the page and the board, and the `!isLoading` test in `handleKeyPress`, are not modelled. Each handler is modelled as one atomic step, so no handler observes another's intermediate state.
- Ranking.Leaderboard.FetchLeaderboardData: the leaderboard's `isLoading` flag is modelled only by its value before a fetch (set by the constructor) and after it (cleared). The state during the 800 ms wait is not modelled, and neither is the spinner shown while loading.
- Board.GameBoard.InputChange: lengths are counted in Unicode characters, not in UTF-16 code units as JavaScript's `length` counts them. A value holding a character outside the Basic Multilingual Plane can therefore pass the model's length check where the code rejects it.
- Board.GameBoard.SubmitGuess: the length check counts Unicode characters, not UTF-16 code units.
- Evaluator.Evaluate: positions are Unicode characters, not the UTF-16 code units that `split("")` produces.
- `Board.ToUpper`: upper-cases ASCII letters only. JavaScript's `toUpperCase` also maps non-ASCII letters, and can change a string's length.
- The login panel's own form and validation, the home page and dashboard content, and the navigation bar's layout are not modelled. Their effect on the page is the `Login`, `LoginPanelClose`, `PlayNow`, `StartGame` and navigation actions of `App.Home.Dispatch`.
- The leaderboard's floating-point statistics (`winRate`, `averageAttempts`) and their formatting are not modelled. Neither is the hard-coded mock leaderboard, nor the scoring legend, which is prose that no client code computes.
- Rendering details are not modelled: colours, icons, focus handling, spinners, the per-cell colour of each verdict, and the tab titles.
- `Board.GameBoard.RoundConsistent` is proved preserved only for submissions made while the round is open. The board shows its input and submit button only while the game is not over.
