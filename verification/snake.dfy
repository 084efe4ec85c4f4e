/** The SnakeGame component: a 20 by 20 grid, a snake that moves one tile
    per tick, food that makes it grow, and a reset when it leaves the grid
    or runs into itself. Its only use site, the registration page's loading
    branch, refers to it without importing it. The food's new position is
    the caller's draw; score, status text and drawing are not modelled. */
module Snake {

  const TileCount: int := 20

  datatype Point = Point(x: int, y: int)

  function Add(a: Point, b: Point): Point {
    Point(a.x + b.x, a.y + b.y)
  }

  function Neg(a: Point): Point {
    Point(-a.x, -a.y)
  }

  const Start: Point := Point(10, 10)
  const Still: Point := Point(0, 0)
  const Up: Point := Point(0, -1)
  const Down: Point := Point(0, 1)
  const Left: Point := Point(-1, 0)
  const Right: Point := Point(1, 0)
  const FirstFood: Point := Point(5, 5)

  predicate IsVelocity(v: Point) {
    v == Still || v == Up || v == Down || v == Left || v == Right
  }

  predicate InGrid(p: Point) {
    0 <= p.x < TileCount && 0 <= p.y < TileCount
  }

  datatype Game = Game(snake: seq<Point>, velocity: Point, food: Point)

  /** What holds of the game between ticks. */
  predicate Valid(g: Game) {
    && |g.snake| >= 1
    && (forall i :: 0 <= i < |g.snake| ==> InGrid(g.snake[i]))
    && IsVelocity(g.velocity)
    && InGrid(g.food)
  }

  /** The first frame: one segment in the middle, standing still, with the
      food at its fixed first place. */
  function Init(): (g: Game)
    ensures Valid(g)
    ensures g.snake == [Start] && g.velocity == Still && g.food == FirstFood
  {
    Game([Start], Still, FirstFood)
  }

  predicate IsArrow(key: string) {
    key == "ArrowUp" || key == "ArrowDown" || key == "ArrowLeft" || key == "ArrowRight"
  }

  /** The direction an arrow key asks for. */
  function Wanted(key: string): Point
    requires IsArrow(key)
  {
    if key == "ArrowUp" then Up
    else if key == "ArrowDown" then Down
    else if key == "ArrowLeft" then Left
    else Right
  }

  /** `changeDirection`: an arrow turns the snake unless it would turn it
      straight back; any other key changes nothing. */
  function ChangeDirection(v: Point, key: string): (r: Point)
    ensures !IsArrow(key) ==> r == v
    ensures IsVelocity(v) && IsArrow(key) ==> r == Wanted(key) || (r == v && Wanted(key) == Neg(v))
    ensures IsVelocity(v) ==> IsVelocity(r)
    ensures IsVelocity(v) && IsArrow(key) ==> r != Neg(v)
  {
    if key == "ArrowUp" then (if v.y != 1 then Up else v)
    else if key == "ArrowDown" then (if v.y != -1 then Down else v)
    else if key == "ArrowLeft" then (if v.x != 1 then Left else v)
    else if key == "ArrowRight" then (if v.x != -1 then Right else v)
    else v
  }

  /** `resetGame`, as far as the grid goes: the food stays where it is. */
  function Reset(g: Game): (r: Game)
    ensures r.snake == [Start] && r.velocity == Still && r.food == g.food
  {
    Game([Start], Still, g.food)
  }

  datatype StepResult = Moved(game: Game, ate: bool) | GameOver(game: Game)

  /** The grid part of `drawGame`: the new head goes in front, the tail is
      dropped unless the head landed on the food, and leaving the grid or
      hitting a later segment resets the game. `respawn` is where the food
      reappears if it is eaten. */
  function Step(g: Game, respawn: Point): (r: StepResult)
    requires Valid(g) && InGrid(respawn)
    ensures Valid(r.game)
    ensures var head := Add(g.snake[0], g.velocity);
      var ate := head == g.food;
      var body := if ate then [head] + g.snake else [head] + g.snake[..|g.snake| - 1];
      && (r.GameOver? <==> !InGrid(head) || head in body[1..])
      && (r.GameOver? ==> r.game.snake == [Start] && r.game.velocity == Still)
      && (r.Moved? ==> r.game.snake == body && r.ate == ate && r.game.velocity == g.velocity)
      && r.game.food == (if ate then respawn else g.food)
  {
    var head := Add(g.snake[0], g.velocity);
    var ate := head == g.food;
    var body := if ate then [head] + g.snake else [head] + g.snake[..|g.snake| - 1];
    var food := if ate then respawn else g.food;
    if !InGrid(head) then GameOver(Reset(g.(food := food)))
    else if head in body[1..] then GameOver(Reset(g.(food := food)))
    else
      assert forall i :: 1 <= i < |body| ==> body[i] == g.snake[i - 1];
      Moved(Game(body, g.velocity, food), ate)
  }

  /** A move without a reset puts the old head plus the velocity in front,
      and keeps the rest of the snake: all of it after eating, all but the
      tail otherwise. */
  lemma MoveShape(g: Game, respawn: Point)
    requires Valid(g) && InGrid(respawn) && Step(g, respawn).Moved?
    ensures var r := Step(g, respawn);
      && r.game.snake[0] == Add(g.snake[0], g.velocity)
      && (r.ate ==> |r.game.snake| == |g.snake| + 1 && r.game.snake[1..] == g.snake)
      && (!r.ate ==> |r.game.snake| == |g.snake| && r.game.snake[1..] == g.snake[..|g.snake| - 1])
  {
    var r := Step(g, respawn);
    var head := Add(g.snake[0], g.velocity);
    if r.ate {
      assert r.game.snake == [head] + g.snake;
    } else {
      assert r.game.snake == [head] + g.snake[..|g.snake| - 1];
    }
  }

  /** Leaving the grid on either axis, in either direction, ends the game. */
  lemma WallEndsGame(g: Game, respawn: Point)
    requires Valid(g) && InGrid(respawn)
    requires !InGrid(Add(g.snake[0], g.velocity))
    ensures Step(g, respawn).GameOver?
    ensures Step(g, respawn).game == Game([Start], Still, g.food)
  {
  }

  /** Things that happen to the game between two draws. */
  datatype Event = Key(key: string) | Tick(respawn: Point)

  predicate RespawnsInGrid(events: seq<Event>) {
    forall i :: 0 <= i < |events| ==> (events[i].Tick? ==> InGrid(events[i].respawn))
  }

  /** The game after a sequence of key presses and ticks. */
  function Play(g: Game, events: seq<Event>): (r: Game)
    requires Valid(g) && RespawnsInGrid(events)
    ensures Valid(r)
    decreases |events|
  {
    if events == [] then g
    else
      var next := match events[0]
        case Key(k) => g.(velocity := ChangeDirection(g.velocity, k))
        case Tick(p) => Step(g, p).game;
      Play(next, events[1..])
  }

  /** From the first frame on, whatever is pressed and wherever the food
      lands, every segment stays on the grid. */
  lemma AlwaysOnGrid(events: seq<Event>)
    requires RespawnsInGrid(events)
    ensures var g := Play(Init(), events);
      forall i :: 0 <= i < |g.snake| ==> InGrid(g.snake[i])
  {
  }

  /** The no-reverse rule compares with the velocity, not with the move
      last drawn: moving right, "up" then "left" within one tick turns the
      snake straight back into its neck, and the next tick resets the game. */
  lemma TwoKeysInOneTickReverse(g: Game, respawn: Point)
    requires Valid(g) && InGrid(respawn)
    requires g.velocity == Right && |g.snake| >= 3
    requires g.snake[1] == Add(g.snake[0], Left) && g.food != g.snake[1]
    ensures ChangeDirection(ChangeDirection(g.velocity, "ArrowUp"), "ArrowLeft") == Neg(g.velocity)
    ensures Step(g.(velocity := ChangeDirection(ChangeDirection(g.velocity, "ArrowUp"), "ArrowLeft")), respawn).GameOver?
  {
    var g' := g.(velocity := Left);
    var head := Add(g.snake[0], Left);
    var body := [head] + g.snake[..|g.snake| - 1];
    assert body[2] == g.snake[1];
  }
}
