/**
 * The older MainFeature component. It runs the same engine; its keyboard
 * handler ignores every key after game over, so only the overlay's reset
 * button ends that status.
 */
module MainFeature {
  import opened Board
  import opened Engine

  /** The decision part of the keydown handler. */
  function KeyIntent(status: Status, direction: Direction, last: Direction, key: Key): (i: Intent)
    ensures status == GameOver ==> i == Ignore
    ensures i != Reset
    ensures i == Start <==> key == Space && status == Ready
    ensures i == Pause <==> key == Space && status == Playing
    ensures i == Resume <==> key == Space && status == Paused
    ensures i.Turn? ==>
              key == Arrow(i.d) && status != GameOver && direction != Opposite(i.d) && last != Opposite(i.d)
    ensures (key.Arrow? && status != GameOver &&
             direction != Opposite(key.toward) && last != Opposite(key.toward)) ==> i == Turn(key.toward)
  {
    if status == GameOver then Ignore
    else
      match key
      case Space =>
        (match status
         case Ready => Start
         case Playing => Pause
         case Paused => Resume
         case GameOver => Ignore)
      case Arrow(d) => ArrowIntent(direction, last, d)
      case OtherKey => Ignore
  }

  /** handleKeyPress: decides on the key, then performs the decision; it never saves. */
  method HandleKeyPress(g: Game, key: Key, updatedAt: string)
    requires g.Valid()
    modifies g, g.store
    ensures g.Valid()
    ensures g.state == Apply(old(g.state), KeyIntent(old(g.state.status), old(g.state.direction), old(g.lastDirection), key), g.state.food)
    ensures g.store.data == old(g.store.data)
  {
    var intent := KeyIntent(g.state.status, g.state.direction, g.lastDirection, key);
    g.Perform(intent, updatedAt);
  }

  /**
   * The overlay's START, RESUME and PLAY AGAIN buttons. PLAY AGAIN is the
   * only path out of game over, and so the only one that saves a high score.
   */
  method HandleOverlayButton(g: Game, updatedAt: string)
    requires g.Valid()
    modifies g, g.store
    ensures g.Valid()
    ensures g.state == Apply(old(g.state), ActionIntent(old(g.state.status)), g.state.food)
    ensures old(g.state.status) == GameOver ==> g.state.status == Ready
    ensures g.store.data ==
              if old(g.state.status) == GameOver then SavedTable(old(g.state), old(g.store.data), updatedAt)
              else old(g.store.data)
  {
    g.Perform(ActionIntent(g.state.status), updatedAt);
  }

  /** Something that happens to the component: a key press or a tick with the food it would place. */
  datatype Event = Press(key: Key) | Timer(freshFood: Cell)

  /** The state after a series of events, keys judged against the state's own direction. */
  function Replay(s: GameState, events: seq<Event>): (r: GameState)
    requires s.snake != []
    ensures r.snake != []
    decreases |events|
  {
    if events == [] then s
    else
      var next := match events[0]
        case Press(key) => Apply(s, KeyIntent(s.status, s.direction, s.direction, key), s.food)
        case Timer(food) => Tick(s, food);
      Replay(next, events[1..])
  }

  /** Neither keys nor ticks leave game over; only the overlay's reset does. */
  lemma {:induction false} GameOverAbsorbsEvents(s: GameState, events: seq<Event>)
    requires s.snake != [] && s.status == GameOver
    ensures Replay(s, events) == s
    decreases |events|
  {
    if events != [] {
      match events[0] {
        case Press(key) =>
          assert KeyIntent(s.status, s.direction, s.direction, key) == Ignore;
        case Timer(food) =>
          assert Tick(s, food) == s;
      }
      GameOverAbsorbsEvents(s, events[1..]);
    }
  }
}
