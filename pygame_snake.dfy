/**
 * The second snake game: a `Snake` object with a body list and a direction
 * vector, a food position, and module-level `score` and `game_over` globals
 * updated by `game_loop`.
 *
 * Its rules differ from the session-state snake and are modelled as written:
 * `move` never drops the tail, so the snake grows by one cell every step, and
 * `grow` appends a copy of the last cell, so the collision test fires right
 * after the snake eats. The random initial direction and the random food
 * positions are supplied by the caller.
 */
module PygameSnake {

  const ScreenWidth: int := 400
  const ScreenHeight: int := 400
  const GridSize: int := 20
  const GridWidth: int := ScreenWidth / GridSize
  const GridHeight: int := ScreenHeight / GridSize

  /** A grid cell or a direction vector, as the source's 2-tuples. */
  datatype Vec = Vec(x: int, y: int)

  /** The four unit vectors `random.choice` picks the initial direction from. */
  const Directions: seq<Vec> := [Vec(0, 1), Vec(0, -1), Vec(1, 0), Vec(-1, 0)]

  predicate InGrid(c: Vec) {
    0 <= c.x < GridWidth && 0 <= c.y < GridHeight
  }

  predicate AllInGrid(body: seq<Vec>) {
    forall i :: 0 <= i < |body| ==> InGrid(body[i])
  }

  /** Some cell occurs twice in the body. */
  predicate HasRepeat(body: seq<Vec>) {
    exists i, j :: 0 <= i < j < |body| && body[i] == body[j]
  }

  function Elements(body: seq<Vec>): set<Vec> {
    set c | c in body
  }

  /** The head after one step, wrapped onto the grid (Python's `%` with a positive
      divisor lies in [0, divisor), like Dafny's). */
  function Advance(head: Vec, direction: Vec): (h: Vec)
    ensures InGrid(h)
  {
    Vec((head.x + direction.x) % GridWidth, (head.y + direction.y) % GridHeight)
  }

  /** `Snake.move`: the advanced head in front of the whole old body. */
  function Moved(body: seq<Vec>, direction: Vec): seq<Vec>
    requires |body| >= 1
  {
    [Advance(body[0], direction)] + body
  }

  /** `Snake.grow`: the last cell once more at the end. */
  function Grown(body: seq<Vec>): seq<Vec>
    requires |body| >= 1
  {
    body + [body[|body| - 1]]
  }

  /** The cardinality argument behind `check_collision`: the set of cells is as large
      as the list exactly when no cell repeats. */
  lemma {:induction false} ElementsCount(body: seq<Vec>)
    ensures |Elements(body)| <= |body|
    ensures |Elements(body)| == |body| <==> !HasRepeat(body)
  {
    if body != [] {
      var rest := body[1..];
      ElementsCount(rest);
      assert Elements(body) == {body[0]} + Elements(rest);
      if body[0] in rest {
        var k :| 0 <= k < |rest| && rest[k] == body[0];
        assert body[0] == body[k + 1];
        assert Elements(body) == Elements(rest);
      } else {
        assert HasRepeat(body) ==> HasRepeat(rest) by {
          if HasRepeat(body) {
            var i, j :| 0 <= i < j < |body| && body[i] == body[j];
            assert i > 0;
            assert rest[i - 1] == rest[j - 1];
          }
        }
        assert HasRepeat(rest) ==> HasRepeat(body) by {
          if HasRepeat(rest) {
            var i, j :| 0 <= i < j < |rest| && rest[i] == rest[j];
            assert body[i + 1] == body[j + 1];
          }
        }
      }
    }
  }

  class Snake {
    var body: seq<Vec>
    var direction: Vec

    /** A new snake: the middle cell, heading in the randomly chosen `direction`. */
    constructor (direction: Vec)
      requires direction in Directions
      ensures body == [Vec(GridWidth / 2, GridHeight / 2)] && this.direction == direction
    {
      body := [Vec(GridWidth / 2, GridHeight / 2)];
      this.direction := direction;
    }

    method Move()
      requires |body| >= 1
      modifies this
      ensures body == Moved(old(body), direction) && direction == old(direction)
    {
      var head := body[0];
      var newHead := Vec((head.x + direction.x) % GridWidth, (head.y + direction.y) % GridHeight);
      body := [newHead] + body;
    }

    method Grow()
      requires |body| >= 1
      modifies this
      ensures body == Grown(old(body)) && direction == old(direction)
    {
      body := body + [body[|body| - 1]];
    }

    /** `check_collision`: the body has fewer distinct cells than entries. */
    function CheckCollision(): (r: bool)
      reads this
      ensures r <==> HasRepeat(body)
    {
      ElementsCount(body);
      |body| != |Elements(body)|
    }
  }

  // ---------------------------------------------------------------------------
  // The globals and one call of game_loop, as values

  /** The module globals: the snake's body and direction, the food position,
      `score` and `game_over`. */
  datatype Globals = Globals(body: seq<Vec>, direction: Vec, food: Vec, score: int, gameOver: bool)

  /** The globals right after `snake = Snake()`, `food = Food()`, `score = 0`,
      `game_over = False`. */
  function Initial(direction: Vec, food: Vec): Globals {
    Globals([Vec(GridWidth / 2, GridHeight / 2)], direction, food, 0, false)
  }

  /** `game_loop` without its drawing: when the game is on, move; on food, grow,
      replace the food by `newFood` and score; then end the game if a cell repeats. */
  function Step(w: Globals, newFood: Vec): Globals
    requires |w.body| >= 1
  {
    if w.gameOver then w
    else
      var moved := Moved(w.body, w.direction);
      var eats := moved[0] == w.food;
      var body := if eats then Grown(moved) else moved;
      w.(body := body,
         food := if eats then newFood else w.food,
         score := if eats then w.score + 1 else w.score,
         gameOver := HasRepeat(body))
  }

  /** What stays true of the globals between calls. Because eating always ends the
      game, a running game has score 0 and a score never exceeds 1. */
  predicate GlobalsInv(w: Globals) {
    && |w.body| >= 1
    && AllInGrid(w.body)
    && w.direction in Directions
    && InGrid(w.food)
    && (!w.gameOver ==> !HasRepeat(w.body) && w.score == 0)
    && (w.score == 0 || (w.score == 1 && w.gameOver))
  }

  datatype Button = UpButton | DownButton | LeftButton | RightButton

  /** The vector each arrow button assigns. */
  function ButtonVector(b: Button): (v: Vec)
    ensures v in Directions
  {
    match b
    case UpButton => Vec(0, -1)
    case DownButton => Vec(0, 1)
    case LeftButton => Vec(-1, 0)
    case RightButton => Vec(1, 0)
  }

  /** The module globals, updated in place. */
  class Game {
    var snake: Snake
    var food: Vec
    var score: int
    var gameOver: bool

    function State(): Globals
      reads this, snake
    {
      Globals(snake.body, snake.direction, food, score, gameOver)
    }

    ghost predicate Valid()
      reads this, snake
    {
      GlobalsInv(State())
    }

    /** The module start-up; `direction` and `food` are the random draws. */
    constructor (direction: Vec, food: Vec)
      requires direction in Directions && InGrid(food)
      ensures State() == Initial(direction, food) && Valid() && fresh(snake)
    {
      snake := new Snake(direction);
      this.food := food;
      score := 0;
      gameOver := false;
    }

    /** `game_loop` without drawing; `newFood` is the position a new `Food()` draws. */
    method GameLoop(newFood: Vec)
      requires Valid() && InGrid(newFood)
      modifies this, snake
      ensures snake == old(snake)
      ensures State() == Step(old(State()), newFood) && Valid()
    {
      StepInv(State(), newFood);
      if !gameOver {
        snake.Move();
        if snake.body[0] == food {
          snake.Grow();
          food := newFood;
          score := score + 1;
        }
        if snake.CheckCollision() {
          gameOver := true;
        }
      }
    }

    /** The Restart button, shown only when the game is over: a fresh snake heading in
        the drawn `direction`, fresh food, score 0. */
    method Restart(direction: Vec, newFood: Vec)
      requires Valid() && direction in Directions && InGrid(newFood)
      modifies this
      ensures old(gameOver) ==> State() == Initial(direction, newFood) && fresh(snake)
      ensures !old(gameOver) ==> State() == old(State()) && snake == old(snake)
      ensures Valid()
    {
      if gameOver {
        snake := new Snake(direction);
        food := newFood;
        score := 0;
        gameOver := false;
      }
    }

    /** An arrow button, shown only while the game is on: sets the direction vector,
        with no check against reversing. */
    method Press(b: Button)
      requires Valid()
      modifies snake
      ensures !old(gameOver) ==> State() == old(State()).(direction := ButtonVector(b))
      ensures old(gameOver) ==> State() == old(State())
      ensures Valid()
    {
      if !gameOver {
        snake.direction := ButtonVector(b);
      }
    }
  }

  // ---------------------------------------------------------------------------
  // Properties

  /** A new snake is the single middle cell (10, 10). */
  lemma InitialGlobals(direction: Vec, food: Vec)
    requires direction in Directions && InGrid(food)
    ensures GlobalsInv(Initial(direction, food))
    ensures Initial(direction, food).body == [Vec(10, 10)]
  {
  }

  /** `move` keeps every old cell: one more cell, the old body as the suffix, and,
      from an in-grid body, every cell on the grid. */
  lemma MovedKeepsBody(body: seq<Vec>, direction: Vec)
    requires |body| >= 1
    ensures |Moved(body, direction)| == |body| + 1
    ensures Moved(body, direction)[1..] == body
    ensures AllInGrid(body) ==> AllInGrid(Moved(body, direction))
  {
  }

  /** `grow` duplicates the last cell, so the grown body always has a repeat. */
  lemma GrownRepeats(body: seq<Vec>)
    requires |body| >= 1
    ensures |Grown(body)| == |body| + 1
    ensures Grown(body)[|body|] == Grown(body)[|body| - 1]
    ensures HasRepeat(Grown(body))
  {
    var g := Grown(body);
    assert g[|body| - 1] == g[|body|];
  }

  /** A step of a finished game changes nothing. */
  lemma StepWhenOver(w: Globals, newFood: Vec)
    requires |w.body| >= 1 && w.gameOver
    ensures Step(w, newFood) == w
  {
  }

  /** The score rises by one exactly when the moved head lands on the food, and then
      the snake grows and the food is replaced; the game is over after a step exactly
      when `check_collision` holds of the new body. */
  lemma StepScoresOnFood(w: Globals, newFood: Vec)
    requires |w.body| >= 1 && !w.gameOver
    ensures var eats := Advance(w.body[0], w.direction) == w.food;
      && Step(w, newFood).score == (if eats then w.score + 1 else w.score)
      && |Step(w, newFood).body| == (if eats then |w.body| + 2 else |w.body| + 1)
      && (eats ==> Step(w, newFood).food == newFood)
      && (!eats ==> Step(w, newFood).food == w.food)
    ensures Step(w, newFood).gameOver <==> HasRepeat(Step(w, newFood).body)
  {
  }

  /** Eating always ends the game: the grown body repeats its last cell. */
  lemma EatingEndsGame(w: Globals, newFood: Vec)
    requires |w.body| >= 1 && !w.gameOver
    requires Advance(w.body[0], w.direction) == w.food
    ensures Step(w, newFood).gameOver
  {
    GrownRepeats(Moved(w.body, w.direction));
  }

  /** Since the tail is never dropped, a running game ends exactly when the head
      moves onto any cell the snake has occupied since it started. */
  lemma StepCollidesOnRevisit(w: Globals, newFood: Vec)
    requires GlobalsInv(w) && !w.gameOver
    requires Advance(w.body[0], w.direction) != w.food
    ensures Step(w, newFood).gameOver <==> Advance(w.body[0], w.direction) in w.body
  {
    var h := Advance(w.body[0], w.direction);
    var moved := Moved(w.body, w.direction);
    if h in w.body {
      var k :| 0 <= k < |w.body| && w.body[k] == h;
      assert moved[0] == moved[k + 1];
    }
  }

  /** Every `game_loop` step keeps the invariant. */
  lemma StepInv(w: Globals, newFood: Vec)
    requires GlobalsInv(w) && InGrid(newFood)
    ensures GlobalsInv(Step(w, newFood))
  {
    if !w.gameOver {
      var moved := Moved(w.body, w.direction);
      MovedKeepsBody(w.body, w.direction);
      if moved[0] == w.food {
        GrownRepeats(moved);
        assert AllInGrid(Grown(moved));
      }
    }
  }

  /** The globals after a run of `game_loop` calls; `foods[i]` is the position the
      i-th call would draw for a new `Food()`. */
  function Steps(w: Globals, foods: seq<Vec>): Globals
    requires |w.body| >= 1
    decreases |foods|
  {
    if foods == [] then w else Steps(Step(w, foods[0]), foods[1..])
  }

  /** Every run of `game_loop` calls keeps the invariant. */
  lemma {:induction false} StepsInv(w: Globals, foods: seq<Vec>)
    requires GlobalsInv(w)
    requires forall i :: 0 <= i < |foods| ==> InGrid(foods[i])
    ensures GlobalsInv(Steps(w, foods))
    decreases |foods|
  {
    if foods != [] {
      StepInv(w, foods[0]);
      StepsInv(Step(w, foods[0]), foods[1..]);
    }
  }

  /** Because eating ends the game, the score of a game started afresh never exceeds
      one, however many `game_loop` calls follow, and it reaches one only when the game
      is over. */
  lemma ScoreAtMostOne(direction: Vec, food: Vec, foods: seq<Vec>)
    requires direction in Directions && InGrid(food)
    requires forall i :: 0 <= i < |foods| ==> InGrid(foods[i])
    ensures 0 <= Steps(Initial(direction, food), foods).score <= 1
    ensures Steps(Initial(direction, food), foods).score == 1 ==> Steps(Initial(direction, food), foods).gameOver
  {
    InitialGlobals(direction, food);
    StepsInv(Initial(direction, food), foods);
  }
}
