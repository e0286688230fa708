/**
 * The game-state engine: the state record, the tick that advances it, the
 * intents that change its status and direction, and the component that
 * holds it.
 */
module Engine {
  import opened Board
  import opened Records
  import opened GameStateApi

  const InitialSnake: seq<Cell> := [Cell(10, 10)]
  const InitialFood: Cell := Cell(15, 15)
  const InitialSpeed: int := 200
  /** The fastest tick interval, in milliseconds. */
  const MinSpeed: int := 50
  /** How much faster each meal makes the game, in milliseconds. */
  const SpeedStep: int := 5
  const FoodReward: int := 10
  /** The id of the saved game state that holds the high score. */
  const HighScoreId: int := 1

  datatype Direction = Up | Down | Left | Right

  const InitialDirection: Direction := Right

  datatype Status = Ready | Playing | Paused | GameOver

  /** The snake is listed head first. */
  datatype GameState = GameState(
    snake: seq<Cell>,
    food: Cell,
    direction: Direction,
    score: int,
    highScore: int,
    status: Status,
    speed: int)

  const InitialState: GameState :=
    GameState(InitialSnake, InitialFood, InitialDirection, 0, 0, Ready, InitialSpeed)

  function Max(a: int, b: int): int {
    if a >= b then a else b
  }

  function Abs(a: int): int {
    if a >= 0 then a else -a
  }

  function Opposite(d: Direction): (r: Direction)
    ensures r != d
  {
    match d
    case Up => Down
    case Down => Up
    case Left => Right
    case Right => Left
  }

  /** The neighbour of c in direction d (UP is y - 1). */
  function Step(c: Cell, d: Direction): (r: Cell)
    ensures Abs(r.x - c.x) + Abs(r.y - c.y) == 1
    ensures (d == Up || d == Down) <==> r.x == c.x
    ensures d == Up ==> r.y < c.y
    ensures d == Down ==> r.y > c.y
    ensures d == Left ==> r.x < c.x
    ensures d == Right ==> r.x > c.x
  {
    match d
    case Up => Cell(c.x, c.y - 1)
    case Down => Cell(c.x, c.y + 1)
    case Left => Cell(c.x - 1, c.y)
    case Right => Cell(c.x + 1, c.y)
  }

  /** A step in the opposite direction undoes a step. */
  lemma OppositeUndoesStep(c: Cell, d: Direction)
    ensures Step(Step(c, d), Opposite(d)) == c
    ensures Opposite(Opposite(d)) == d
  {
  }

  /** The cell the head moves to on the next tick. */
  function NextHead(s: GameState): Cell
    requires s.snake != []
  {
    Step(s.snake[0], s.direction)
  }

  /** The next tick moves the head onto the food. */
  predicate Eats(s: GameState)
    requires s.status == Playing ==> s.snake != []
  {
    s.status == Playing && InBounds(NextHead(s)) && NextHead(s) !in s.snake && NextHead(s) == s.food
  }

  /**
   * The next tick eats the last free cell: the grown snake would cover the
   * whole board, so no cell is left for new food.
   */
  predicate FillsBoard(s: GameState)
    requires s.status == Playing ==> s.snake != []
  {
    Eats(s) && |s.snake| + 1 >= BoardCells
  }

  /**
   * moveSnake: one step of the game. `freshFood` is the cell generateFood
   * returns for the grown snake; it is used only when the head lands on
   * the food. A meal that fills the board ends the game instead of asking
   * for food that cannot exist.
   */
  function Tick(s: GameState, freshFood: Cell): (r: GameState)
    requires s.status == Playing ==> s.snake != []
    ensures s.status != Playing ==> r == s
    ensures r.direction == s.direction && r.highScore == s.highScore
    ensures r.status == GameOver && !Eats(s) ==>
              r.snake == s.snake && r.food == s.food && r.score == s.score && r.speed == s.speed
    ensures s.status == Playing ==>
              (r.status == GameOver <==> !InBounds(NextHead(s)) || NextHead(s) in s.snake || FillsBoard(s))
    ensures s.status == Playing && (r.status != GameOver || Eats(s)) ==>
              r.snake != [] && r.snake[0] == NextHead(s) && r.snake[1..] <= s.snake
    ensures s.status == Playing && r.status != GameOver ==> r.status == Playing
    ensures |r.snake| == if Eats(s) then |s.snake| + 1 else |s.snake|
    ensures Eats(s) ==>
              r.score == s.score + FoodReward && r.speed == Max(MinSpeed, s.speed - SpeedStep) &&
              r.food == if FillsBoard(s) then s.food else freshFood
    ensures !Eats(s) ==> r.food == s.food && r.score == s.score && r.speed == s.speed
  {
    if s.status != Playing then s
    else
      var head := NextHead(s);
      if !InBounds(head) then s.(status := GameOver)
      else if head in s.snake then s.(status := GameOver)
      else if head == s.food then
        var grown := s.(snake := [head] + s.snake, score := s.score + FoodReward,
                        speed := Max(MinSpeed, s.speed - SpeedStep));
        if |grown.snake| >= BoardCells then grown.(status := GameOver)
        else grown.(food := freshFood)
      else
        s.(snake := [head] + s.snake[..|s.snake| - 1])
  }

  predicate OnBoard(cells: seq<Cell>) {
    forall i :: 0 <= i < |cells| ==> InBounds(cells[i])
  }

  predicate Distinct(cells: seq<Cell>) {
    forall i, j :: 0 <= i < j < |cells| ==> cells[i] != cells[j]
  }

  /**
   * What every reachable state satisfies: the snake is a non-overlapping
   * path of board cells one longer than the meals eaten, the food is on a
   * free cell while the board is not full, and the speed is the one the meals have earned.
   */
  predicate WellFormed(s: GameState) {
    && s.score >= 0 && s.score % FoodReward == 0
    && |s.snake| == 1 + s.score / FoodReward
    && OnBoard(s.snake) && Distinct(s.snake)
    && InBounds(s.food) && (|s.snake| < BoardCells ==> s.food !in s.snake)
    && s.speed == Max(MinSpeed, InitialSpeed - SpeedStep * (s.score / FoodReward))
  }

  /** The speed of a well-formed state stays within [MinSpeed, InitialSpeed]. */
  lemma SpeedBounds(s: GameState)
    requires WellFormed(s)
    ensures MinSpeed <= s.speed <= InitialSpeed
  {
  }

  lemma InitialStateWellFormed()
    ensures WellFormed(InitialState)
  {
  }

  /** The food a tick places is acceptable: on the board and off the grown snake. */
  predicate FreshFoodFits(s: GameState, freshFood: Cell)
    requires s.status == Playing ==> s.snake != []
  {
    Eats(s) && !FillsBoard(s) ==> InBounds(freshFood) && freshFood != NextHead(s) && freshFood !in s.snake
  }

  /** A tick keeps the snake on the board, non-overlapping and in step with the score. */
  lemma TickPreservesWellFormed(s: GameState, freshFood: Cell)
    requires WellFormed(s)
    requires FreshFoodFits(s, freshFood)
    ensures WellFormed(Tick(s, freshFood))
  {
  }

  /**
   * The k-th cell of a path that sweeps row 0 left to right, row 1 right to
   * left, and so on down the board.
   */
  function Sweep(k: int): (c: Cell)
    requires 0 <= k < BoardCells
    ensures InBounds(c)
  {
    var x, y := k % GridSize, k / GridSize;
    Cell(if y % 2 == 0 then x else GridSize - 1 - x, y)
  }

  /** The sweep visits every board cell exactly once. */
  lemma SweepIsBijective(c: Cell)
    requires InBounds(c)
    ensures exists k :: 0 <= k < BoardCells && Sweep(k) == c
    ensures forall k1, k2 :: 0 <= k1 < BoardCells && 0 <= k2 < BoardCells && Sweep(k1) == c && Sweep(k2) == c ==> k1 == k2
  {
    var k := c.y * GridSize + (if c.y % 2 == 0 then c.x else GridSize - 1 - c.x);
    assert Sweep(k) == c;
  }

  /**
   * A playing, well-formed state whose snake follows the sweep backwards
   * through all but the last cell, heading for the food on the last one.
   */
  function SweepState(): (s: GameState)
    ensures |s.snake| == BoardCells - 1
  {
    GameState(seq(BoardCells - 1, i requires 0 <= i < BoardCells - 1 => Sweep(BoardCells - 2 - i)),
              Sweep(BoardCells - 1), Left, FoodReward * (BoardCells - 2), 0, Playing, MinSpeed)
  }

  /**
   * As written, moveSnake asks generateFood for a cell off the grown snake
   * after every meal. In this well-formed state the next meal grows the
   * snake over every board cell, so the retry loop has no cell to stop at.
   */
  lemma {:induction false} FullBoardStarvesFood()
    ensures WellFormed(SweepState()) && Eats(SweepState())
    ensures forall c :: InBounds(c) ==> c in [NextHead(SweepState())] + SweepState().snake
  {
    var s := SweepState();
    assert s.snake[0] == Cell(1, GridSize - 1);
    forall i, j | 0 <= i < j < |s.snake| ensures s.snake[i] != s.snake[j] {
      SweepIsBijective(s.snake[i]);
    }
    assert NextHead(s) == s.food;
    forall i | 0 <= i < |s.snake| ensures s.snake[i] != s.food {
      SweepIsBijective(s.food);
    }
    forall c | InBounds(c) ensures c in [NextHead(s)] + s.snake {
      SweepIsBijective(c);
      var k :| 0 <= k < BoardCells && Sweep(k) == c;
      if k < BoardCells - 1 {
        assert s.snake[BoardCells - 2 - k] == c;
      }
    }
  }

  /** The board-filling meal of that state scores and ends the game, with no food needed. */
  lemma FullBoardEndsGame(freshFood: Cell)
    ensures var r := Tick(SweepState(), freshFood);
            r.status == GameOver && |r.snake| == BoardCells && r.score == FoodReward * (BoardCells - 1) &&
            WellFormed(r)
  {
    FullBoardStarvesFood();
    TickPreservesWellFormed(SweepState(), freshFood);
  }

  /** Ticks in a row, with the food each meal places. */
  function Run(s: GameState, foods: seq<Cell>): (r: GameState)
    requires s.snake != []
    ensures r.snake != []
    decreases |foods|
  {
    if foods == [] then s else Run(Tick(s, foods[0]), foods[1..])
  }

  /** From a speed of at least MinSpeed, ticks never slow the game down nor push it past MinSpeed. */
  lemma {:induction false} RunSpeedNeverRises(s: GameState, foods: seq<Cell>)
    requires s.snake != []
    requires s.speed >= MinSpeed
    ensures MinSpeed <= Run(s, foods).speed <= s.speed
    decreases |foods|
  {
    if foods != [] {
      RunSpeedNeverRises(Tick(s, foods[0]), foods[1..]);
    }
  }

  /** Along any run, the snake grows by exactly one cell per FoodReward points. */
  lemma {:induction false} RunGrowthMatchesScore(s: GameState, foods: seq<Cell>)
    requires s.snake != []
    ensures FoodReward * (|Run(s, foods).snake| - |s.snake|) == Run(s, foods).score - s.score
    ensures Run(s, foods).highScore == s.highScore
    decreases |foods|
  {
    if foods != [] {
      RunGrowthMatchesScore(Tick(s, foods[0]), foods[1..]);
    }
  }

  /** Once the game is over, no number of ticks changes anything. */
  lemma {:induction false} RunStopsAtGameOver(s: GameState, foods: seq<Cell>)
    requires s.snake != [] && s.status != Playing
    ensures Run(s, foods) == s
    decreases |foods|
  {
    if foods != [] {
      RunStopsAtGameOver(Tick(s, foods[0]), foods[1..]);
    }
  }

  /** A key the handler sees: space, an arrow toward a direction, or anything else. */
  datatype Key = Space | Arrow(toward: Direction) | OtherKey

  /** What a key press or an overlay button asks the component to do. */
  datatype Intent = Ignore | Start | Pause | Resume | Reset | Turn(d: Direction)

  /**
   * The arrow-key check: a turn toward d is dropped when d reverses the
   * state's direction or the last requested one.
   */
  function ArrowIntent(direction: Direction, last: Direction, d: Direction): (i: Intent)
    ensures i == Turn(d) <==> direction != Opposite(d) && last != Opposite(d)
    ensures i != Turn(d) ==> i == Ignore
  {
    if direction != Opposite(d) && last != Opposite(d) then Turn(d) else Ignore
  }

  /** handleGameAction: the overlay button of each non-playing status. */
  function ActionIntent(status: Status): (i: Intent)
    ensures i == Ignore <==> status == Playing
    ensures i == Start <==> status == Ready
    ensures i == Resume <==> status == Paused
    ensures i == Reset <==> status == GameOver
    ensures !i.Pause? && !i.Turn?
  {
    match status
    case Ready => Start
    case Paused => Resume
    case GameOver => Reset
    case Playing => Ignore
  }

  /** resetGame: the defaults, keeping the better of score and high score. */
  function ResetState(s: GameState, food: Cell): GameState {
    GameState(InitialSnake, food, InitialDirection, 0, Max(s.score, s.highScore), Ready, InitialSpeed)
  }

  /** A reset starts a fresh, well-formed game and commits the high score. */
  lemma ResetCommitsHighScore(s: GameState, food: Cell)
    requires InBounds(food) && food !in InitialSnake
    ensures WellFormed(ResetState(s, food))
    ensures ResetState(s, food).status == Ready && ResetState(s, food).score == 0
    ensures ResetState(s, food).snake == InitialSnake && ResetState(s, food).direction == InitialDirection
    ensures ResetState(s, food).speed == InitialSpeed && ResetState(s, food).food != Cell(10, 10)
    ensures ResetState(s, food).highScore >= s.score && ResetState(s, food).highScore >= s.highScore
    ensures ResetState(s, food).highScore == s.score || ResetState(s, food).highScore == s.highScore
  {
  }

  /** The saved game states after resetGame: written only when the score beats the high score. */
  function SavedTable(s: GameState, data: seq<Record>, updatedAt: string): seq<Record> {
    if Max(s.score, s.highScore) > s.highScore then
      Updated(data, HighScoreId, map["highScore" := Num(Max(s.score, s.highScore))], updatedAt)
    else data
  }

  /** `gameData.highScore || 0` for a number or a missing field. */
  function StoredHighScore(r: Record): int {
    if "highScore" in r && r["highScore"].Num? then r["highScore"].n else 0
  }

  /**
   * Persisting and loading agree: after a reset that beat the high score,
   * loading reads back exactly the committed high score; a reset that did
   * not beat it writes nothing.
   */
  lemma SavedHighScoreReloads(s: GameState, data: seq<Record>, updatedAt: string, food: Cell)
    requires FirstIndexOf(data, HighScoreId) >= 0
    ensures s.score <= s.highScore ==> SavedTable(s, data, updatedAt) == data
    ensures s.score > s.highScore ==>
              Lookup(SavedTable(s, data, updatedAt), HighScoreId).Some? &&
              StoredHighScore(Lookup(SavedTable(s, data, updatedAt), HighScoreId).value)
                == ResetState(s, food).highScore
  {
  }

  /**
   * initializeHighScore and loading agree: once a saved value is copied
   * into the first record, and that record is the saved game state,
   * loading reads back exactly the saved value.
   */
  lemma InitializedHighScoreLoads(data: seq<Record>, saved: int)
    requires |data| > 0 && HasId(data[0], HighScoreId)
    ensures Lookup(data[0 := data[0]["highScore" := Num(saved)]], HighScoreId).Some?
    ensures StoredHighScore(Lookup(data[0 := data[0]["highScore" := Num(saved)]], HighScoreId).value) == saved
  {
  }

  /** The state after the component performs an intent; `food` is the cell a reset generates. */
  function Apply(s: GameState, i: Intent, food: Cell): GameState {
    match i
    case Ignore => s
    case Start => s.(status := Playing)
    case Pause => s.(status := Paused)
    case Resume => s.(status := Playing)
    case Reset => ResetState(s, food)
    case Turn(d) => s.(direction := d)
  }

  /** Every intent keeps a well-formed state well-formed. */
  lemma ApplyPreservesWellFormed(s: GameState, i: Intent, food: Cell)
    requires WellFormed(s)
    requires InBounds(food) && food !in InitialSnake
    ensures WellFormed(Apply(s, i, food))
  {
    if i == Reset {
      ResetCommitsHighScore(s, food);
    }
  }

  /**
   * The game component: its state record and the `lastDirectionRef` field,
   * with the saved game states it reads and writes.
   */
  class Game {
    var state: GameState
    var lastDirection: Direction
    const store: GameStateService

    ghost predicate Valid()
      reads this
    {
      WellFormed(state) && lastDirection == state.direction
    }

    constructor (store: GameStateService)
      ensures Valid()
      ensures state == InitialState && lastDirection == InitialDirection
      ensures this.store == store
    {
      state := InitialState;
      lastDirection := InitialDirection;
      this.store := store;
    }

    /** loadGameData: takes the high score from the saved game state, if there is one. */
    method LoadGameData()
      requires Valid()
      modifies this
      ensures Valid() && lastDirection == old(lastDirection)
      ensures state == match Lookup(store.data, HighScoreId)
                       case None => old(state)
                       case Some(r) => old(state).(highScore := StoredHighScore(r))
    {
      var gameData := store.GetById(HighScoreId);
      if gameData.Some? {
        state := state.(highScore := StoredHighScore(gameData.value));
      }
    }

    /**
     * moveSnake, with the food placed by GenerateFood when the head lands on
     * it; a meal that leaves no free cell ends the game instead.
     */
    method MoveSnake()
      requires Valid()
      modifies this
      ensures Valid() && lastDirection == old(lastDirection)
      ensures state == Tick(old(state), state.food)
    {
      if state.status != Playing {
        return;
      }
      var head := Step(state.snake[0], state.direction);
      if !InBounds(head) {
        state := state.(status := GameOver);
        return;
      }
      if head in state.snake {
        state := state.(status := GameOver);
        return;
      }
      var newSnake := [head] + state.snake;
      var newFood, newScore, newSpeed, newStatus := state.food, state.score, state.speed, state.status;
      if head == state.food {
        if |newSnake| < BoardCells {
          newFood := GenerateFood(newSnake);
        } else {
          newStatus := GameOver;
        }
        newScore := newScore + FoodReward;
        newSpeed := Max(MinSpeed, newSpeed - SpeedStep);
      } else {
        newSnake := newSnake[..|newSnake| - 1];
      }
      TickPreservesWellFormed(state, newFood);
      state := state.(snake := newSnake, food := newFood, score := newScore, speed := newSpeed, status := newStatus);
    }

    method StartGame()
      requires Valid()
      modifies this
      ensures Valid() && lastDirection == old(lastDirection)
      ensures state == old(state).(status := Playing)
    {
      state := state.(status := Playing);
    }

    method PauseGame()
      requires Valid()
      modifies this
      ensures Valid() && lastDirection == old(lastDirection)
      ensures state == old(state).(status := Paused)
    {
      state := state.(status := Paused);
    }

    method ResumeGame()
      requires Valid()
      modifies this
      ensures Valid() && lastDirection == old(lastDirection)
      ensures state == old(state).(status := Playing)
    {
      state := state.(status := Playing);
    }

    /** changeDirection: both the state's direction and the last-direction field take the request. */
    method ChangeDirection(d: Direction)
      requires Valid()
      modifies this
      ensures Valid()
      ensures state == old(state).(direction := d) && lastDirection == d
    {
      state := state.(direction := d);
      lastDirection := d;
    }

    /**
     * resetGame: saves the high score when the score beat it (a failed save
     * is only reported), then restores the defaults with a new food cell.
     */
    method ResetGame(updatedAt: string)
      requires Valid()
      modifies this, store
      ensures Valid() && lastDirection == InitialDirection
      ensures state == ResetState(old(state), state.food)
      ensures store.data == SavedTable(old(state), old(store.data), updatedAt)
    {
      var newHighScore := Max(state.score, state.highScore);
      if newHighScore > state.highScore {
        var saved := store.Update(HighScoreId, map["highScore" := Num(newHighScore)], updatedAt);
      }
      var food := GenerateFood(InitialSnake);
      ResetCommitsHighScore(state, food);
      state := GameState(InitialSnake, food, InitialDirection, 0, newHighScore, Ready, InitialSpeed);
      lastDirection := InitialDirection;
    }

    /** Carries out what a key press or an overlay button asked for. */
    method Perform(i: Intent, updatedAt: string)
      requires Valid()
      modifies this, store
      ensures Valid()
      ensures state == Apply(old(state), i, state.food)
      ensures store.data == if i == Reset then SavedTable(old(state), old(store.data), updatedAt)
                            else old(store.data)
    {
      match i
      case Ignore =>
      case Start => StartGame();
      case Pause => PauseGame();
      case Resume => ResumeGame();
      case Reset => ResetGame(updatedAt);
      case Turn(d) => ChangeDirection(d);
    }
  }
}
