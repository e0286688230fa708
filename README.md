# Neon snake: the game-state engine, in Dafny

This project models the core of a browser snake game. The game state is one
record: the snake as a head-first list of board cells, the food cell, the
direction, the score, the high score, the status (`ready`, `playing`,
`paused`, `gameOver`) and the speed (the tick interval in milliseconds). The
board is 20 x 20 cells.

- `Board` (board.dfy): cells, the board, and `GenerateFood`. The source's
  random retry loop is modelled by its outcome: some free cell. It is proved
  by pigeonhole that a free cell exists whenever the snake has fewer than
  400 cells.
- `Engine` (engine.dfy): the state record; `Tick` (the source's
  `moveSnake`) as a pure function; the invariant `WellFormed` that every
  reachable state keeps; the intents (start, pause, resume, reset, change
  direction) as the pure function `Apply`; and the component class `Game`.
  `Game` holds the state, the `lastDirectionRef` field and the saved-game
  table, and has one method per intent. Each method is proved against the
  pure function.
- `SnakeGame` (snake_game.dfy) and `MainFeature` (main_feature.dfy): the
  two components that hold the engine. Both make the same state
  transitions. They differ in the keyboard handler: after game over,
  SnakeGame still hears space (which resets) and MainFeature hears nothing.
  MainFeature leaves game over only through its overlay's PLAY AGAIN
  button.
- `Records`, `GameStateApi`, `SettingsApi` (records.dfy,
  game_state_api.dfy, settings_api.dfy): the two in-memory mock services. A
  record is a map from field names to values. A table is a sequence of
  records that the service classes change in place.
- `Scenarios` (scenarios.dfy): four worked games: plain moves, eating,
  hitting a wall, and a refused reversal.

The MainFeature component makes the same state transitions as SnakeGame.
It differs only in notifications (SnakeGame also shows an error toast when
loading or saving fails) and in React wrappers (SnakeGame wraps its intents
in `useCallback` and resets through a functional state update). So
`generateFood` (src/components/MainFeature.jsx:67-76), `moveSnake`
(79-147), `changeDirection` (211-214), start, pause and resume (216-229) and
`resetGame` (231-257) are modelled by the same members as their
counterparts in src/components/organisms/SnakeGame.jsx. These are
`GenerateFood`, `Tick`/`Game.MoveSnake`, `Game.ChangeDirection`,
`Game.StartGame`/`PauseGame`/`ResumeGame` and `Game.ResetGame`, with the
lemmas about them. Only MainFeature's keyboard handler and overlay get
members of their own.

Four places where a reader might expect different behaviour; the model
follows the code:

- A direction request is checked against the last *requested* direction,
  not against the direction the last tick moved in. `changeDirection` sets
  both the state's direction and `lastDirectionRef`, and the tick sets
  neither. So two key presses between ticks can reverse the snake into its
  own neck. `SnakeGame.RapidTurnsReverse` shows this.
- `startGame`, `pauseGame` and `resumeGame` do not check the status. They
  set it unconditionally. Only the keyboard handler and the overlay buttons
  make sure each is called from the right status. `Apply` models them that
  way, and `KeyIntent`/`ActionIntent` carry the guards.
- The high score is committed only at reset, not at game over.
- The snake stays free of overlaps in every status, not only while playing,
  because a collision leaves the snake as it was.

## Model

| member | source | states |
|---|---|---|
| `Board.BoardCount` | src/components/organisms/SnakeGame.jsx:12 | the board of GRID_SIZE x GRID_SIZE cells has exactly 400 cells, and they are exactly the in-bounds cells |
| `Board.RowsCount` | src/components/organisms/SnakeGame.jsx:76-77 | the first h rows hold h * 20 cells (the coordinates the random draw can produce) |
| `Board.FreeCellExists` | src/components/organisms/SnakeGame.jsx:74-79 | if the snake has fewer than 400 cells, some in-bounds cell is not on it, so the retry loop has a cell to stop at |
| `Board.GenerateFood` | src/components/organisms/SnakeGame.jsx:72-81 | the food it returns is on the board and on no cell of the snake it was given |
| `Engine.Step` | src/components/organisms/SnakeGame.jsx:92-98 | the new head is one unit from the old head: UP lowers y, DOWN raises y, LEFT lowers x, RIGHT raises x, and the other coordinate is unchanged |
| `Engine.OppositeUndoesStep` | src/components/organisms/SnakeGame.jsx:225-248 | the direction each arrow refuses is the one that undoes its step, and opposite pairs are symmetric |
| `Engine.Tick` | src/components/organisms/SnakeGame.jsx:84-143 | no change unless playing; game over exactly when the next head leaves the board or lands on any old cell, tail included (and then nothing else changes), or when a meal fills the board; otherwise the new head is prepended to a prefix of the old snake, one cell longer exactly when the head lands on the food; eating adds 10 points, sets speed to max(50, speed - 5) and takes the new food, except that a board-filling meal keeps the old food cell; without eating, food, score and speed stay; the tick never changes direction or high score |
| `Engine.TickPreservesWellFormed` | src/components/organisms/SnakeGame.jsx:100-141 | from a well-formed state, with food placed off the grown snake, a tick keeps the snake in bounds and free of overlaps, its length one more than score / 10, the food on a free board cell while the board is not full, and the speed equal to max(50, 200 - 5 * meals) |
| `Engine.SpeedBounds` | src/components/organisms/SnakeGame.jsx:15 | in every well-formed state the speed lies between 50 and 200 |
| `Engine.InitialStateWellFormed` | src/components/organisms/SnakeGame.jsx:18-26 | the initial state (snake (10,10), food (15,15), RIGHT, score 0, speed 200, ready) is well formed |
| `Engine.SweepIsBijective` | src/components/organisms/SnakeGame.jsx:12 | a row-by-row sweep of the board reaches every in-bounds cell at exactly one step |
| `Engine.FullBoardStarvesFood` | src/components/organisms/SnakeGame.jsx:117-119 | there is a well-formed playing state whose next meal grows the snake over every board cell, so the food retry loop, as written, has no cell to stop at |
| `Engine.FullBoardEndsGame` | src/components/organisms/SnakeGame.jsx:117-124 | in that state the model's tick takes the meal, scores it and ends the game with a 400-cell snake, still well formed |
| `Engine.RunSpeedNeverRises` | src/components/organisms/SnakeGame.jsx:121 | over any number of ticks from a speed of at least 50, the speed never rises and never drops below 50 |
| `Engine.RunGrowthMatchesScore` | src/components/organisms/SnakeGame.jsx:112-127 | over any number of ticks the snake grows by exactly one cell per 10 points scored, and the high score is untouched |
| `Engine.RunStopsAtGameOver` | src/components/organisms/SnakeGame.jsx:86 | when the game is not playing, any number of ticks leaves the state as it was |
| `Engine.ArrowIntent` | src/components/organisms/SnakeGame.jsx:225-248 | an arrow toward d is accepted exactly when neither the state's direction nor the last requested direction is opposite(d); otherwise it is dropped |
| `Engine.ActionIntent` | src/components/organisms/SnakeGame.jsx:270-274 | the overlay action starts from ready, resumes from paused, resets from game over, and does nothing while playing |
| `Engine.ResetCommitsHighScore` | src/components/organisms/SnakeGame.jsx:171-198 | a reset gives status ready, score 0, snake [(10,10)], direction RIGHT, speed 200 and food other than (10,10), in a well-formed state, with high score = max(score, high score) |
| `Engine.SavedHighScoreReloads` | src/components/organisms/SnakeGame.jsx:171-183 | the save runs only when the score beats the high score; after it, loading the saved game state reads back exactly the committed high score |
| `Engine.InitializedHighScoreLoads` | src/services/api/gameStateService.js:57-62 | after the saved high score is copied into the first record (the saved game state with id 1), loading the game reads back exactly that value |
| `Engine.ApplyPreservesWellFormed` | src/components/organisms/SnakeGame.jsx:156-203 | start, pause, resume, reset and a direction change all keep the state well formed |
| `Engine.Game.constructor` | src/components/organisms/SnakeGame.jsx:18-38 | the component starts in the initial state with lastDirectionRef RIGHT |
| `Engine.Game.LoadGameData` | src/components/organisms/SnakeGame.jsx:41-69 | only the high score changes, and only when the saved game state with id 1 exists; it becomes that record's numeric highScore, or 0 |
| `Engine.Game.MoveSnake` | src/components/organisms/SnakeGame.jsx:84-143 | from any valid state, the state after the step is `Tick` of the old state with the food that GenerateFood placed, and it stays well formed |
| `Engine.Game.StartGame` | src/components/organisms/SnakeGame.jsx:156-159 | only the status changes, to playing |
| `Engine.Game.PauseGame` | src/components/organisms/SnakeGame.jsx:161-164 | only the status changes, to paused |
| `Engine.Game.ResumeGame` | src/components/organisms/SnakeGame.jsx:166-169 | only the status changes, to playing |
| `Engine.Game.ChangeDirection` | src/components/organisms/SnakeGame.jsx:200-203 | the state's direction and lastDirectionRef both become the request; nothing else changes |
| `Engine.Game.ResetGame` | src/components/organisms/SnakeGame.jsx:171-198 | the state becomes the reset state with a freshly placed food, lastDirectionRef becomes RIGHT, and the saved game states change only by the high-score update when the score beat the high score |
| `Engine.Game.Perform` | src/components/organisms/SnakeGame.jsx:213-248 | performing an intent yields `Apply` of it, and only a reset touches the saved game states |
| `SnakeGame.KeyIntent` | src/components/organisms/SnakeGame.jsx:207-252 | after game over every key but space is ignored; space maps ready to start, playing to pause, paused to resume and game over to reset; an arrow turns exactly when it reverses neither direction field |
| `SnakeGame.HandleKeyPress` | src/components/organisms/SnakeGame.jsx:206-256 | a key press performs the decision of `KeyIntent`, and saves only on space after game over |
| `SnakeGame.HandleGameAction` | src/components/organisms/SnakeGame.jsx:270-274 | the overlay action performs `ActionIntent`; while playing it changes nothing; the saved game states change only from game over, and then exactly by the reset's high-score save |
| `SnakeGame.RapidTurnsReverse` | src/components/organisms/SnakeGame.jsx:200-203 | moving UP, the presses LEFT then DOWN are both accepted, and the next tick reverses the head into the neck and ends the game |
| `MainFeature.KeyIntent` | src/components/MainFeature.jsx:162-205 | in game over every key, space included, is ignored; it never resets; space maps ready, playing and paused to start, pause and resume; an arrow turns exactly when it reverses neither direction field |
| `MainFeature.HandleKeyPress` | src/components/MainFeature.jsx:161-209 | a key press performs the decision of `KeyIntent` and never writes the saved game states |
| `MainFeature.HandleOverlayButton` | src/components/MainFeature.jsx:395-450 | START, RESUME and PLAY AGAIN perform `ActionIntent`; from game over the result is ready; the saved game states change only on PLAY AGAIN, and then exactly by the reset's high-score save |
| `MainFeature.GameOverAbsorbsEvents` | src/components/MainFeature.jsx:165 | from game over, any sequence of key presses and ticks leaves the state unchanged; only the reset button leaves it |
| `Records.FirstIndexOf` | src/services/api/gameStateService.js:32 | the index of the first record whose id matches, or -1 exactly when none matches |
| `Records.FindIndex` | src/services/api/gameStateService.js:48 | the scan returns the first matching index, or -1 |
| `Records.Lookup` | src/services/api/gameStateService.js:15-16 | None exactly when no record has the id; otherwise the first record with that id |
| `Records.Stamped` | src/services/api/gameStateService.js:21-25 | the new record has the given fields plus the id and createdAt, and those two stamps win |
| `Records.Merged` | src/services/api/gameStateService.js:34 | the merged record has the union of the fields; updates win over the old record; updatedAt is set |
| `Records.Updated` | src/services/api/gameStateService.js:30-44 | the same length; only the first matching index changes, to the merge; with no match the table is unchanged |
| `Records.Deleted` | src/services/api/gameStateService.js:46-54 | with a match, exactly the first matching record is removed and the rest keep their order; with none, the table is unchanged |
| `Records.CreateThenLookup` | src/services/api/gameStateService.js:19-28 | a record created with a fresh id is the one a later getById of that id finds |
| `Records.UpdateThenLookup` | src/services/api/gameStateService.js:30-41 | an update that does not touch the id keeps the record at its index, and getById then returns the merge |
| `Records.DeleteThenLookup` | src/services/api/gameStateService.js:46-53 | deleting the only record with an id makes getById of it return null |
| `GameStateApi.GameStateService.constructor` | src/services/api/gameStateService.js:6 | the table starts as a copy of the mock data |
| `GameStateApi.GameStateService.GetAll` | src/services/api/gameStateService.js:8-11 | the copy returned equals the table |
| `GameStateApi.GameStateService.GetById` | src/services/api/gameStateService.js:13-17 | the first record with the id, or null |
| `GameStateApi.GameStateService.Create` | src/services/api/gameStateService.js:19-28 | exactly one stamped record is appended at the end, and it is returned |
| `GameStateApi.GameStateService.Update` | src/services/api/gameStateService.js:30-44 | the table becomes `Updated`; an absent id throws "Game state not found" with the table unchanged; otherwise the merged record is returned |
| `GameStateApi.GameStateService.Delete` | src/services/api/gameStateService.js:46-54 | the table becomes `Deleted`; an absent id throws; otherwise the removed record is returned |
| `GameStateApi.GameStateService.InitializeHighScore` | src/services/api/gameStateService.js:57-62 | only data[0].highScore changes, and only when a saved value exists and the table is non-empty |
| `SettingsApi.SettingsService.constructor` | src/services/api/settingsService.js:6 | the table starts as a copy of the mock data |
| `SettingsApi.SettingsService.GetAll` | src/services/api/settingsService.js:8-11 | the copy returned equals the table |
| `SettingsApi.SettingsService.GetById` | src/services/api/settingsService.js:13-17 | the first record with the id, or null |
| `SettingsApi.SettingsService.Create` | src/services/api/settingsService.js:19-28 | exactly one stamped record is appended at the end |
| `SettingsApi.SettingsService.Update` | src/services/api/settingsService.js:30-38 | only the first matching index changes, to the merge, and the length is kept; an absent id throws "Settings not found" with the table unchanged |
| `SettingsApi.SettingsService.Delete` | src/services/api/settingsService.js:40-48 | exactly the first matching record is removed and the rest keep their order; an absent id throws |
| `Scenarios.PlainMoves` | src/components/organisms/SnakeGame.jsx:125-127 | from (10,10) moving RIGHT with food at (15,15), four ticks put the head at (14,10) with no growth and no score |
| `Scenarios.EatAhead` | src/components/organisms/SnakeGame.jsx:118-124 | with food at (11,10), one tick gives snake [(11,10),(10,10)], score 10, speed 195, and food off both cells |
| `Scenarios.LeftWall` | src/components/organisms/SnakeGame.jsx:101-104 | from (0,10) moving LEFT, the tick ends the game and leaves the snake where it was |
| `Scenarios.ReverseRefused` | src/components/organisms/SnakeGame.jsx:231-236 | moving UP, the DOWN arrow is refused and the next tick moves the head to (5,4) |

## Findings

| source | as written | input that shows it | evidently intended | confidence | as-written member | corrected member |
|---|---|---|---|---|---|---|
| src/components/organisms/SnakeGame.jsx:117-119 (and src/components/MainFeature.jsx:122-123) | after every meal `moveSnake` calls `generateFood(newSnake)`, whose retry loop (SnakeGame.jsx:72-79) stops only on a cell off the snake; when the meal fills the board no such cell exists and the loop never ends, freezing the game at the moment it is won | the snake of 399 cells along a row-by-row sweep with its head at (1,19) moving LEFT onto the food at (0,19) | a board-filling meal ends the game (scored) instead of asking for food | high that the loop cannot end; medium on the intended outcome; not executed | `Engine.FullBoardStarvesFood` (with `Board.GenerateFood`, which requires a free cell) | `Engine.Tick`, `Engine.Game.MoveSnake`, `Engine.FullBoardEndsGame` |

## Left out

- Rendering, animation, the score flash, the trail effect with its wall-clock timestamps, and the toast notifications are presentation. They are not modelled.
- The `setInterval` game loop is not modelled. `Engine.Run` only strings ticks together, in order.
- React scheduling is not modelled: batched `setGameState` calls, the handler reading a stale `gameState` from its closure, and work interleaved across the `await` in `resetGame`. Each tick, key press and button press is one atomic step. As a result, the state's direction and `lastDirectionRef` are always equal in the model (the class invariant says so). They can differ in the browser only between a key press and the next render.
- `Board.GenerateFood`: the random draws, their distribution and the number of retries are not modelled. Only the outcome is: some free board cell. It requires fewer than 400 snake cells. On a full board the source's loop never ends (see Findings).
- Loaded settings (difficulty, sound, grid size) are not modelled. The engine never reads them, and the grid size reaches only the canvas.
- Integers are unbounded. The source's scores and coordinates are JavaScript numbers, which are exact for every reachable value.
- `Engine.StoredHighScore`: `gameData.highScore || 0` is modelled for a numeric or missing field only. A truthy non-numeric value would be passed through by the source; the model reads 0.
- `Engine.Game.LoadGameData`: the error branch and the loading spinner are not modelled. The in-memory `getById` cannot fail.
- The artificial `delay` in the services is not modelled. `Date.now()` ids and ISO timestamps are parameters. The mock JSON data is the constructor's argument. Each static table is one class instance.
- `GameStateApi.GameStateService.Update`: the `localStorage` write of the new high score is not modelled.
- `GameStateApi.GameStateService.InitializeHighScore`: reading `localStorage` and `parseInt` are not modelled. The argument is the already-parsed saved value. An unparsable value (NaN) is not modelled.
- Record values are numbers, strings and booleans. Nested objects are not modelled. Records are values, so the aliasing between a shallow copy returned earlier and a record later changed in place is not captured.
- The "new high score" banner at game over is display only.
