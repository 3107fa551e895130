# Ghost-leg ladder and form rules, modelled in Dafny

This project models the game logic of a small party-games web app. It covers three pages:

- **Local ladder game** (`play-local/page.tsx`). Players pick a count, enter names and results, and a Ghost Leg (Amidakuji) ladder of 10 rows is drawn at random. Clicking a player traces their path and, after an animation, reveals their result.
- **Shared ladder creation** (`ladder/create/page.tsx`). A form with title, host name and a list of result labels that grows and shrinks with the player count. It generates a ladder with the same algorithm and sends it to the backend.
- **Poll creation** (`vote/create/page.tsx`). A form with a list of options that can be added, removed and edited, and an `isValid` guard.

Modules, one per concern:

| module | file | what it holds |
|---|---|---|
| `Common` | `common.dfy` | `Option` |
| `Text` | `text.dfy` | JavaScript `trim()` over a fixed whitespace set, blankness, `some`/`every` over trimmed strings, the decimal rendering used in template literals, default label lists |
| `Ladder` | `ladder.dfy` | the rung record `LadderLine`, the constants (10 rows, 2 to 10 players), the count clamp, and the shape predicates of a valid ladder |
| `Generator` | `generator.dfy` | the generator: a specification (`Scan`, `Row`, `Generated`) and the nested-loop method `GenerateLadderLines`, proved equal to it |
| `Tracer` | `tracer.dfy` | `getPathForPlayer` as a loop method, the trace functions it is proved against, the permutation property, the winner lookup and the result table |
| `LocalGame` | `local_game.dfy` | the local page as a class `Game` whose methods are the event handlers |
| `LadderCreate` | `ladder_create.dfy` | the ladder creation form as a class `LadderForm`, with the label resize and the creation guard |
| `VoteCreate` | `vote_create.dfy` | the poll creation form as a class `VoteForm`, with option add/remove/edit, `isValid` and the creation guard |

`Math.random` becomes an explicit `Choices` value:

- one coin per cell, standing for `Math.random() < 0.5`;
- one forced column per row, standing for `Math.floor(Math.random() * (count - 1))`.

`Fits(ch, count)` says those draws are as many, and in the range, as the source's calls can produce. The 1500 ms reveal timer is the separate step `Game.FinishReveal`.

The two pages carry the same generator code (`play-local/page.tsx:68-96` and `create/page.tsx:36-65`). It is modelled once and used by both pages.

## Model

| member | source | states |
|---|---|---|
| Ladder.ClampCount | src/app/games/ladder/play-local/page.tsx:62-64 | the count lies in [2,10]; a count already in range is kept exactly; below goes to 2, above goes to 10 |
| Text.TrimEmptyIffBlank | src/app/games/ladder/create/page.tsx:68 | `s.trim()` is empty exactly when every character of `s` is whitespace |
| Text.AnyTrimsEmpty | src/app/games/ladder/create/page.tsx:68 | `some(l => !l.trim())` holds exactly when some element is blank |
| Text.EveryTrimsFilled | src/app/games/vote/create/page.tsx:69 | `every(o => o.trim())` holds exactly when no element is blank |
| Text.SomeBlankIsNotEveryFilled | src/app/games/vote/create/page.tsx:42-69 | the `some(!trim)` form and the `every(trim)` form are exact negations |
| Text.HasBlankField | src/app/games/ladder/create/page.tsx:68 | the early return of `handleCreate` (the same expression on both creation pages) holds exactly when the title, the host name or some list entry is blank |
| Text.NatToString | src/app/games/ladder/play-local/page.tsx:58-59 | the `${n}` rendering is a non-empty digit string, with two or more digits exactly from 10 up |
| Text.NatToStringRoundTrip | src/app/games/ladder/play-local/page.tsx:78 | reading the rendered digits back gives the number |
| Text.NatToStringInjective | src/app/games/ladder/play-local/page.tsx:78 | distinct numbers render differently |
| Text.DefaultLabels | src/app/games/ladder/play-local/page.tsx:58-59 | `Array(n).fill("").map((_, i) => prefix + (i+1))` has length n, and entry i is prefix followed by i+1 |
| Generator.ScanCellsHold | src/app/games/ladder/play-local/page.tsx:74-84 | after the inner loop has visited gaps 0..x-1, every rung it placed is a unit rung in row y, left of x, with id `line-${x}-${y}` |
| Generator.ScanSpacedHolds | src/app/games/ladder/play-local/page.tsx:75-76 | the `hasLeftLine` test keeps the rungs the inner loop places at least two columns apart |
| Generator.ScanStep | src/app/games/ladder/play-local/page.tsx:75-83 | one inner-loop iteration on the array built so far extends the specification by one gap, because `hasLeftLine` only sees the current row |
| Generator.LeftLineInScan | src/app/games/ladder/play-local/page.tsx:75 | `lines.some(l => l.y === y && l.fromX === x - 1)` over all lines equals the same test over the current row's lines |
| Generator.ScanRow | src/app/games/ladder/play-local/page.tsx:74-84 | the inner `for` loop appends exactly the specification's random rungs for row y |
| Generator.ForcedPrefix | src/app/games/ladder/play-local/page.tsx:78-90 | random rung ids are never forced ids; forced rung ids always are |
| Generator.RungIdInjective | src/app/games/ladder/play-local/page.tsx:78-90 | the id `line-[forced-]${x}-${y}` determines x, y and whether the rung was forced |
| Generator.RowInRow | src/app/games/ladder/play-local/page.tsx:73-95 | every rung generated for row y has `y` as its row |
| Generator.RowWellFormed | src/app/games/ladder/play-local/page.tsx:73-95 | one row's rungs join x to x+1 inside [0,count-1] and never share a vertical; with more than one player the row is non-empty |
| Generator.RowIdsByPosition | src/app/games/ladder/play-local/page.tsx:78-90 | each rung of a row carries the id built from its own column and row |
| Generator.RowForcedAlone | src/app/games/ladder/play-local/page.tsx:86-95 | a forced rung is the only rung of its row, so it is added only to a row left empty |
| Generator.DistinctIdsFromPositions | src/app/games/ladder/play-local/page.tsx:78-90 | on a well-formed ladder whose ids follow positions, the rung ids (React keys) are pairwise distinct |
| Generator.AppendWellFormed | src/app/games/ladder/play-local/page.tsx:73-96 | appending a well-formed row below the rows done keeps the ladder well formed |
| Generator.AppendForced | src/app/games/ladder/play-local/page.tsx:86-95 | appending a new row keeps every forced rung alone in its row |
| Generator.AppendIdsByPosition | src/app/games/ladder/play-local/page.tsx:78-90 | appending keeps every id following its position |
| Generator.DropLastInPlace | src/app/games/ladder/play-local/page.tsx:73 | the rows before the last still hold their own row indices |
| Generator.FlattenRowsBelow | src/app/games/ladder/play-local/page.tsx:73-96 | after k outer iterations every rung lies in a row below k |
| Generator.FlattenWellFormed | src/app/games/ladder/play-local/page.tsx:73-96 | rows that are each well formed concatenate to a well-formed ladder |
| Generator.FlattenForcedAlone | src/app/games/ladder/play-local/page.tsx:86-95 | forced rungs stay alone in their rows over the whole ladder |
| Generator.FlattenIdsByPosition | src/app/games/ladder/play-local/page.tsx:78-90 | ids follow positions over the whole ladder |
| Generator.FlattenRowsNonEmpty | src/app/games/ladder/play-local/page.tsx:86-95 | non-empty rows give a ladder with a rung in every row |
| Generator.GeneratedRows | src/app/games/ladder/play-local/page.tsx:73 | the rows are in place, and the ladder after k outer iterations lies in rows below k |
| Generator.GeneratedLadder | src/app/games/ladder/play-local/page.tsx:73-96 | every generated rung joins x to x+1 with 0 <= x < count-1 and 0 <= y < 10; no two rungs of a row share a vertical; forced rungs are alone in their row; ids are distinct; with more than one player every row 0..9 has a rung |
| Generator.RowStep | src/app/games/ladder/play-local/page.tsx:86-95 | the forced-rung step closes row y: the ladder equals the specification after y+1 rows |
| Generator.GenerateLadderLines | src/app/games/ladder/create/page.tsx:36-65 | the nested loops compute exactly the specified ladder for the given draws, which is well formed, has distinct ids, keeps forced rungs alone, and with more than one player has a rung in every row |
| Tracer.FindTouching | src/app/games/ladder/play-local/page.tsx:110 | `find` returns a rung of that row touching the column, and returns none exactly when no rung does |
| Tracer.InsertPerm | src/app/games/ladder/play-local/page.tsx:106 | an insertion step of the sort keeps the multiset of rungs |
| Tracer.InsertSorted | src/app/games/ladder/play-local/page.tsx:106 | an insertion step keeps the list ordered by row |
| Tracer.InsertRowOf | src/app/games/ladder/play-local/page.tsx:106 | an insertion step is stable: each row's rungs keep their relative order |
| Tracer.SortByRowCorrect | src/app/games/ladder/play-local/page.tsx:106 | `sort((a, b) => a.y - b.y)` gives a row-ordered permutation of the rungs that keeps each row's order (JavaScript's sort is stable) |
| Tracer.FindInRow | src/app/games/ladder/play-local/page.tsx:110 | the `find` for row y sees only the rungs of row y |
| Tracer.SortedFind | src/app/games/ladder/play-local/page.tsx:106-110 | the `find` over the sorted copy returns the same rung as over the original lines |
| Tracer.OneRungPerVertical | src/app/games/ladder/play-local/page.tsx:110 | when no vertical is shared in a row, at most one rung touches a column in that row |
| Tracer.FindUnique | src/app/games/ladder/play-local/page.tsx:110 | so `find` returns that one rung |
| Tracer.StepInvolutive | src/app/games/ladder/play-local/page.tsx:110-115 | crossing a row twice returns to the start column |
| Tracer.TraceUpTrace | src/app/games/ladder/play-local/page.tsx:109-119 | tracing up undoes tracing down |
| Tracer.TraceTraceUp | src/app/games/ladder/play-local/page.tsx:109-119 | tracing down undoes tracing up |
| Tracer.TraceInjective | src/app/games/ladder/play-local/page.tsx:109-119 | distinct start columns end in distinct columns |
| Tracer.StepInRange | src/app/games/ladder/play-local/page.tsx:110-115 | crossing a row from a column in [0,n) stays in [0,n) |
| Tracer.TraceInRange | src/app/games/ladder/play-local/page.tsx:109-119 | the column stays in [0,n) all the way down |
| Tracer.TraceUpInRange | src/app/games/ladder/play-local/page.tsx:109-119 | the column stays in [0,n) all the way up |
| Tracer.GhostLegPermutation | src/app/games/ladder/play-local/page.tsx:103-121 | on a well-formed ladder `s -> getPathForPlayer(s).endIndex` maps [0,n) into [0,n), is injective, and reaches every end column: a permutation |
| Tracer.MovesAppend | src/app/games/ladder/play-local/page.tsx:113-117 | appending a straight-down or one-column point keeps the path made of such moves |
| Tracer.StepMoves | src/app/games/ladder/play-local/page.tsx:112-114 | a crossing moves the column by exactly one within the row |
| Tracer.PathForPlayer | src/app/games/ladder/play-local/page.tsx:103-122 | the loop's end column is the traced end index; the path starts at (s,-1), ends at (endIndex,10), and every step goes down or across one column when all rungs are unit |
| Tracer.WinnerAt | src/app/games/ladder/play-local/page.tsx:396 | `find` over the revealed players returns one whose path ends at i, and returns none exactly when no such player is listed |
| Tracer.WinnerIsUnique | src/app/games/ladder/play-local/page.tsx:395-397 | with one player per end column, the lookup names player s exactly when s is listed and ends at i |
| Tracer.ResultLabel | src/app/games/ladder/play-local/page.tsx:438 | `bottomInputs[endIndex]` is defined exactly for an index in range, and then it is that label |
| Tracer.ResultTable | src/app/games/ladder/play-local/page.tsx:435-438 | one table row per name |
| Tracer.ResultTableIsAssignment | src/app/games/ladder/play-local/page.tsx:435-438 | on a well-formed ladder every row names the result at its end column; no two rows share a result; every result appears |
| LocalGame.Indices | src/app/games/ladder/play-local/page.tsx:153 | `Array.from({length: n}, (_, i) => i)` as a set holds exactly 0..n-1 |
| LocalGame.GeneratedIsPermutation | src/app/games/ladder/play-local/page.tsx:68-122 | on every ladder the generator can draw, the end columns are a permutation of the players |
| LocalGame.Game.constructor | src/app/games/ladder/play-local/page.tsx:43-60 | the mounted state: config phase, two players, default labels, no ladder, nothing drawn |
| LocalGame.Game.ChangePlayerCount | src/app/games/ladder/play-local/page.tsx:57-64 | the count becomes the clamped sum, kept exactly when in range; both label lists are re-initialised when the count changed and untouched otherwise; nothing else changes |
| LocalGame.Game.StartInputPhase | src/app/games/ladder/play-local/page.tsx:66 | only the phase changes, to input |
| LocalGame.Game.BackToConfig | src/app/games/ladder/play-local/page.tsx:226 | only the phase changes, to config |
| LocalGame.Game.EditTopInput | src/app/games/ladder/play-local/page.tsx:239-243 | only name i changes, to the typed value, and the length is kept |
| LocalGame.Game.EditBottomInput | src/app/games/ladder/play-local/page.tsx:260-264 | only result i changes, to the typed value, and the length is kept |
| LocalGame.Game.GenerateLadder | src/app/games/ladder/play-local/page.tsx:68-101 | the ladder becomes the generated one for the current count; the phase is play and both sets are empty |
| LocalGame.Game.PlayerClick | src/app/games/ladder/play-local/page.tsx:124-150 | while animating nothing changes; on a drawn index it leaves both sets; otherwise it joins the drawn set and the animation for it starts |
| LocalGame.Game.FinishReveal | src/app/games/ladder/play-local/page.tsx:145-149 | the animated index joins the revealed set and the animation ends |
| LocalGame.Game.RevealAll | src/app/games/ladder/play-local/page.tsx:152-156 | both sets become 0..n-1 |
| LocalGame.Game.ResetGame | src/app/games/ladder/play-local/page.tsx:158-162 | back to config with both sets empty; the animation flag and the pending timer are left as they were |
| LocalGame.Game.ResetGameCancelling | src/app/games/ladder/play-local/page.tsx:158-162 | the reset with the timer cancelled: config, both sets empty, no animation, reveal state consistent |
| LocalGame.Game.WinnerOf | src/app/games/ladder/play-local/page.tsx:395-397 | in play, the winner lookup for bottom label i names exactly the revealed player whose path ends at i |
| LocalGame.Game.ShownResult | src/app/games/ladder/play-local/page.tsx:435-447 | a row shows a result exactly when that player is revealed, and then it is the label at that player's end column |
| LocalGame.WinnersUnique | src/app/games/ladder/play-local/page.tsx:395-397 | the lookup is exact for every candidate player at once |
| LocalGame.RevealAllShowsEveryResult | src/app/games/ladder/play-local/page.tsx:435-447 | after Show All (`revealAll`) every result label is shown in some row of the result table |
| LocalGame.TwoPlayerDraw | src/app/games/ladder/play-local/page.tsx:76-88 | a draw the random calls can produce for two players |
| LocalGame.StaleRevealScenario | src/app/games/ladder/play-local/page.tsx:124-162 | click, reset, Next, Start Game, then the timer: in play, player 0 is revealed but not drawn |
| LocalGame.CancellingResetScenario | src/app/games/ladder/play-local/page.tsx:158-162 | the same events with the cancelling reset end consistent, with nothing drawn and no animation |
| LadderCreate.ResizeLabels | src/app/games/ladder/create/page.tsx:29-33 | the resized list has length newCount; entry k keeps the old label when k is below the old length and is `Result ${k+1}` otherwise |
| LadderCreate.ResizeGrows | src/app/games/ladder/create/page.tsx:29-30 | growing keeps the old labels as a prefix and appends `Result k` for k = oldLen+1..newCount |
| LadderCreate.ResizeShrinks | src/app/games/ladder/create/page.tsx:31-32 | shrinking gives exactly the prefix of length newCount |
| LadderCreate.ResizeBackRestores | src/app/games/ladder/create/page.tsx:29-33 | growing then shrinking back to the old count restores the old labels |
| LadderCreate.ResizeDefaults | src/app/games/ladder/create/page.tsx:21-33 | resizing untouched default labels gives the default labels of the new count |
| LadderCreate.NewLabelFilled | src/app/games/ladder/create/page.tsx:30 | a label `Result k` is never blank |
| LadderCreate.ResizeKeepsFilled | src/app/games/ladder/create/page.tsx:29-33 | resizing a list without blank labels leaves none, so a resize alone never blocks creation |
| LadderCreate.ButtonDisabled | src/app/games/ladder/create/page.tsx:212 | the button is disabled while loading, and otherwise exactly when creation would return early |
| LadderCreate.LadderForm.constructor | src/app/games/ladder/create/page.tsx:17-22 | the mounted form: empty title and host, two players, 24 hours, `Result 1` and `Result 2`; creation is blocked |
| LadderCreate.LadderForm.ChangePlayerCount | src/app/games/ladder/create/page.tsx:24-34 | the count becomes the clamped sum and the labels are resized to it, so there is always one label per player |
| LadderCreate.LadderForm.EditBottomLabel | src/app/games/ladder/create/page.tsx:200-204 | only label i changes, to the typed value, and the length is kept |
| LadderCreate.LadderForm.SetTitle | src/app/games/ladder/create/page.tsx:144 | only the title changes |
| LadderCreate.LadderForm.SetHostName | src/app/games/ladder/create/page.tsx:133 | only the host name changes |
| LadderCreate.LadderForm.SetExpireHours | src/app/games/ladder/create/page.tsx:157 | only the expiry changes |
| LadderCreate.LadderForm.Create | src/app/games/ladder/create/page.tsx:67-100 | no request exactly when blocked; otherwise the request carries the form values, `is_active`, the host as player 0, and the generated ladder for the current count, which has rungs in bounds, no shared vertical in a row and a rung in every row |
| VoteCreate.WithOptionAdded | src/app/games/vote/create/page.tsx:27-29 | one more option; the old options are an unchanged prefix, followed by `""` |
| VoteCreate.WithoutOption | src/app/games/vote/create/page.tsx:31-33 | the filter on positions removes exactly position i, keeping the rest in order; an index outside the list removes nothing |
| VoteCreate.RemoveAddedOption | src/app/games/vote/create/page.tsx:27-33 | removing the option just added restores the list |
| VoteCreate.RemovalShifts | src/app/games/vote/create/page.tsx:31-33 | after a removal the options before i stay put and those after i move down one place |
| VoteCreate.IsValid | src/app/games/vote/create/page.tsx:69 | valid exactly when title, host name and every option are non-blank |
| VoteCreate.ReturnsEarlyIffInvalid | src/app/games/vote/create/page.tsx:42-69 | `handleCreate` returns early exactly when `isValid` is false |
| VoteCreate.InitialOptionsInvalid | src/app/games/vote/create/page.tsx:19 | the initial options `["", ""]` make the form invalid whatever the names |
| VoteCreate.AddingInvalidates | src/app/games/vote/create/page.tsx:27-29 | adding an option always makes the form invalid until it is filled |
| VoteCreate.RemovalKeepsValid | src/app/games/vote/create/page.tsx:31-33 | removing an option from a valid form keeps it valid |
| VoteCreate.EditDecidesValidity | src/app/games/vote/create/page.tsx:35-39 | editing one option of a valid form keeps it valid exactly when the new text is non-blank |
| VoteCreate.VoteForm.constructor | src/app/games/vote/create/page.tsx:15-20 | the mounted form: empty names, not anonymous, 24 hours, options `["", ""]` |
| VoteCreate.VoteForm.SyncNickname | src/app/games/vote/create/page.tsx:23-25 | a non-empty stored nickname becomes the host name; an empty one changes nothing |
| VoteCreate.VoteForm.AddOption | src/app/games/vote/create/page.tsx:27-29 | options get one `""` appended; nothing else changes |
| VoteCreate.VoteForm.RemoveOption | src/app/games/vote/create/page.tsx:31-33 | with removal offered only above two options (the remove button is rendered only then), exactly position i goes and at least two options remain |
| VoteCreate.VoteForm.ChangeOption | src/app/games/vote/create/page.tsx:35-39 | only option i changes, to the value, and the length is kept |
| VoteCreate.VoteForm.SetTitle | src/app/games/vote/create/page.tsx:99 | only the title changes |
| VoteCreate.VoteForm.SetHostName | src/app/games/vote/create/page.tsx:92 | only the host name changes |
| VoteCreate.VoteForm.SetAnonymous | src/app/games/vote/create/page.tsx:152 | only the anonymity flag changes |
| VoteCreate.VoteForm.SetExpireHours | src/app/games/vote/create/page.tsx:169 | only the expiry changes |
| VoteCreate.VoteForm.Create | src/app/games/vote/create/page.tsx:41-56 | no request exactly when the form is invalid; otherwise the poll request holds the form's values |

## Left out

- Supabase inserts and selects, the poll service, `localStorage`, `router.push`, `alert` and `console.error` are I/O. `LadderForm.Create` and `VoteForm.Create` return the request they would send; what a backend answers, and the error path of a failed insert, are not modelled.
- The poll service's mapping of options to `{text, count: 0}` is not part of this model.
- `Math.random` is the `Choices` argument. The probability 0.5 is not modelled, only which draws are possible.
- `setTimeout` is the separate step `Game.FinishReveal`. No real time or animation is modelled, and neither is React's batching of state updates: each handler is one atomic step.
- The `loading` flag of both create pages is true only while a request is in flight. Handlers are not interleaved with a request, so it is a parameter of `LadderCreate.ButtonDisabled` and not a field of the form.
- `showResultModal`, the SVG coordinates (`getXPos`, `getYPos`) and the colours are presentation only.
- The expiry date built with `Date.setHours` is wall-clock arithmetic; only `expireHours` is passed on.
- JavaScript `trim()` is modelled by a fixed set of whitespace characters. Strings are sequences of characters, with no UTF-16 surrogate handling.
- The nickname store is reduced to the string passed to `VoteForm.SyncNickname`, and creation's `setNickname` is not modelled.
- Phase requirements on the local page's handlers (for example `PlayerClick` only in play) say which screen shows the button the handler belongs to. Calls from screens that do not render that button are not modelled.
- `Tracer.PathForPlayer`: the end index is stated for every ladder. The path shape "one column per crossing" is stated only when all rungs join x to x+1, which every generated ladder satisfies.
- `Tracer.SortByRow` models `Array.prototype.sort` as a stable insertion sort. Any stable sort gives the same order, and ECMAScript 2019 requires `sort` to be stable.
- The player count clamp keeps the count in [2,10], so no label or path index exceeds JavaScript's safe integers, and integers are left unbounded.

## Findings

| source | as written | input that shows it | evidently intended | confidence | as-written member | corrected member |
|---|---|---|---|---|---|---|
| src/app/games/ladder/play-local/page.tsx:145-162 | `resetGame` clears the phase and both sets, but it neither cancels the pending 1500 ms reveal timer nor clears `isAnimating` | click player 0, press reset within 1500 ms, press Next and Start Game, then let the timer fire: in the new game player 0 is revealed but no path is drawn, and if the timer has not fired yet every click is ignored until it does | a reset also cancels the pending reveal, so that in play every revealed player has a drawn path | not executed | LocalGame.StaleRevealScenario | LocalGame.Game.ResetGameCancelling |
