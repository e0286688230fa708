/** The SnakeGame component: its keyboard handler and overlay action over the shared engine. */
module SnakeGame {
  import opened Board
  import opened Engine

  /**
   * The decision part of the keydown handler. After game over only space
   * is heard; space walks the status cycle; an arrow turns the snake unless
   * the turn reverses the direction or the last requested direction.
   */
  function KeyIntent(status: Status, direction: Direction, last: Direction, key: Key): (i: Intent)
    ensures status == GameOver && key != Space ==> i == Ignore
    ensures i == Start <==> key == Space && status == Ready
    ensures i == Pause <==> key == Space && status == Playing
    ensures i == Resume <==> key == Space && status == Paused
    ensures i == Reset <==> key == Space && status == GameOver
    ensures i.Turn? ==>
              key == Arrow(i.d) && status != GameOver && direction != Opposite(i.d) && last != Opposite(i.d)
    ensures (key.Arrow? && status != GameOver &&
             direction != Opposite(key.toward) && last != Opposite(key.toward)) ==> i == Turn(key.toward)
  {
    if status == GameOver && key != Space then Ignore
    else
      match key
      case Space =>
        (match status
         case Ready => Start
         case Playing => Pause
         case Paused => Resume
         case GameOver => Reset)
      case Arrow(d) => ArrowIntent(direction, last, d)
      case OtherKey => Ignore
  }

  /** handleKeyPress: decides on the key, then performs the decision. */
  method HandleKeyPress(g: Game, key: Key, updatedAt: string)
    requires g.Valid()
    modifies g, g.store
    ensures g.Valid()
    ensures g.state == Apply(old(g.state), KeyIntent(old(g.state.status), old(g.state.direction), old(g.lastDirection), key), g.state.food)
    ensures g.store.data ==
              if old(g.state.status) == GameOver && key == Space
              then SavedTable(old(g.state), old(g.store.data), updatedAt)
              else old(g.store.data)
  {
    var intent := KeyIntent(g.state.status, g.state.direction, g.lastDirection, key);
    g.Perform(intent, updatedAt);
  }

  /** handleGameAction: the overlay button; it does nothing while playing. */
  method HandleGameAction(g: Game, updatedAt: string)
    requires g.Valid()
    modifies g, g.store
    ensures g.Valid()
    ensures g.state == Apply(old(g.state), ActionIntent(old(g.state.status)), g.state.food)
    ensures old(g.state.status) == Playing ==> g.state == old(g.state)
    ensures g.store.data ==
              if old(g.state.status) == GameOver then SavedTable(old(g.state), old(g.store.data), updatedAt)
              else old(g.store.data)
  {
    g.Perform(ActionIntent(g.state.status), updatedAt);
  }

  /**
   * The arrow check compares against requested directions only, so two key
   * presses between ticks can reverse the snake: moving UP, LEFT then DOWN
   * are both accepted, and the next tick runs the head into the neck.
   */
  lemma RapidTurnsReverse()
    ensures var s := GameState([Cell(5, 5), Cell(5, 6)], Cell(0, 0), Up, 10, 0, Playing, 195);
            var s1 := Apply(s, KeyIntent(s.status, s.direction, Up, Arrow(Left)), s.food);
            var s2 := Apply(s1, KeyIntent(s1.status, s1.direction, Left, Arrow(Down)), s1.food);
            WellFormed(s) && s2.direction == Down && Opposite(s.direction) == Down &&
            Tick(s2, s2.food).status == GameOver
  {
  }
}
