/**
 * The snake game page that keeps its state in the session: a snake of grid
 * cells on a 20 x 20 torus, a food cell, a direction name, a score and a
 * game-over flag. Every run of the page moves the snake once (unless the game
 * is over) and applies the button the player pressed.
 *
 * The random food positions are supplied by the caller.
 */
module GridSnake {

  const Width: int := 20
  const Height: int := 20

  datatype Cell = Cell(x: int, y: int)

  predicate InGrid(c: Cell) {
    0 <= c.x < Width && 0 <= c.y < Height
  }

  /** The four direction names the page uses. */
  predicate ValidDirection(d: string) {
    d == "UP" || d == "DOWN" || d == "LEFT" || d == "RIGHT"
  }

  /** Two cells are one step apart on the torus (horizontally or vertically). */
  predicate Adjacent(a: Cell, b: Cell) {
    || (a.x == b.x && (b.y == (a.y + 1) % Height || a.y == (b.y + 1) % Height))
    || (a.y == b.y && (b.x == (a.x + 1) % Width || a.x == (b.x + 1) % Width))
  }

  /** The cell the head moves to. Python's `%` with a positive divisor agrees with
      Dafny's: the result lies in [0, divisor). Any name other than UP, DOWN and
      LEFT moves right. */
  function NextHead(head: Cell, direction: string): (h: Cell)
    ensures InGrid(head) ==> InGrid(h) && Adjacent(head, h) && h != head
  {
    if direction == "UP" then Cell(head.x, (head.y - 1) % Height)
    else if direction == "DOWN" then Cell(head.x, (head.y + 1) % Height)
    else if direction == "LEFT" then Cell((head.x - 1) % Width, head.y)
    else Cell((head.x + 1) % Width, head.y)
  }

  /** The session fields of the game. */
  datatype GameState = GameState(snake: seq<Cell>, food: Cell, direction: string, gameOver: bool, score: int)

  predicate Distinct(cells: seq<Cell>) {
    forall i, j :: 0 <= i < j < |cells| ==> cells[i] != cells[j]
  }

  /** What the page keeps true of its state. */
  predicate Inv(s: GameState) {
    && |s.snake| >= 1
    && (forall i :: 0 <= i < |s.snake| ==> InGrid(s.snake[i]))
    && Distinct(s.snake)
    && s.score == |s.snake| - 1
    && InGrid(s.food)
    && ValidDirection(s.direction)
  }

  /** The state a new session starts with; `food` is the random cell drawn for it. */
  function Initial(food: Cell): GameState {
    GameState([Cell(Width / 2, Height / 2)], food, "RIGHT", false, 0)
  }

  /** `move_snake`: the head advances; hitting a segment (the tail included, since the
      check comes before the tail is dropped) ends the game; eating grows the snake
      and scores; otherwise the body slides. `newFood` is the random cell drawn when
      food is eaten. */
  function Moved(s: GameState, newFood: Cell): GameState
    requires |s.snake| >= 1
  {
    var h := NextHead(s.snake[0], s.direction);
    if h in s.snake then s.(gameOver := true)
    else if h == s.food then s.(snake := [h] + s.snake, score := s.score + 1, food := newFood)
    else s.(snake := [h] + s.snake[..|s.snake| - 1])
  }

  datatype Button = UpButton | DownButton | LeftButton | RightButton

  function ButtonDirection(b: Button): string {
    match b
    case UpButton => "UP"
    case DownButton => "DOWN"
    case LeftButton => "LEFT"
    case RightButton => "RIGHT"
  }

  /** The direction each button refuses to override. */
  function Blocking(b: Button): string {
    match b
    case UpButton => "DOWN"
    case DownButton => "UP"
    case LeftButton => "RIGHT"
    case RightButton => "LEFT"
  }

  /** The direction after a button press: the pressed direction, unless it is the
      reverse of the current one, in which case the press is ignored. */
  function Steer(direction: string, b: Button): (d: string)
    ensures d == direction || d == ButtonDirection(b)
    ensures ValidDirection(direction) ==> ValidDirection(d)
  {
    if direction != Blocking(b) then ButtonDirection(b) else direction
  }

  /** What the player does during one run of the page. */
  datatype Click = NoClick | Arrow(button: Button) | RestartClick

  /** One run of the page: while the game is on, the snake moves and then the pressed
      arrow is applied; once it is over, only Restart does anything. */
  function Rerun(s: GameState, click: Click, newFood: Cell): GameState
    requires |s.snake| >= 1
  {
    if !s.gameOver then
      var moved := Moved(s, newFood);
      match click
      case Arrow(b) => moved.(direction := Steer(moved.direction, b))
      case _ => moved
    else if click == RestartClick then Initial(newFood)
    else s
  }

  // ---------------------------------------------------------------------------
  // The session state, updated in place

  class Game {
    var snake: seq<Cell>
    var food: Cell
    var direction: string
    var gameOver: bool
    var score: int

    function State(): GameState
      reads this
    {
      GameState(snake, food, direction, gameOver, score)
    }

    ghost predicate Valid()
      reads this
    {
      Inv(State())
    }

    /** The session initialisation; `food` is the random starting food cell. */
    constructor (food: Cell)
      requires InGrid(food)
      ensures State() == Initial(food) && Valid()
    {
      snake := [Cell(Width / 2, Height / 2)];
      this.food := food;
      direction := "RIGHT";
      gameOver := false;
      score := 0;
      new;
      InitialInv(food);
    }

    method MoveSnake(newFood: Cell)
      requires Valid() && InGrid(newFood)
      modifies this
      ensures State() == Moved(old(State()), newFood) && Valid()
    {
      MovedInv(State(), newFood);
      var head := snake[0];
      var newHead;
      if direction == "UP" {
        newHead := Cell(head.x, (head.y - 1) % Height);
      } else if direction == "DOWN" {
        newHead := Cell(head.x, (head.y + 1) % Height);
      } else if direction == "LEFT" {
        newHead := Cell((head.x - 1) % Width, head.y);
      } else {
        newHead := Cell((head.x + 1) % Width, head.y);
      }
      if newHead in snake {
        gameOver := true;
      } else {
        snake := [newHead] + snake;
        if newHead == food {
          score := score + 1;
          food := newFood;
        } else {
          snake := snake[..|snake| - 1];
        }
      }
    }

    /** An arrow button: sets the direction unless that would reverse the snake. */
    method Press(b: Button)
      requires Valid()
      modifies this
      ensures State() == old(State()).(direction := Steer(old(direction), b)) && Valid()
    {
      if direction != Blocking(b) {
        direction := ButtonDirection(b);
      }
    }

    method Restart(newFood: Cell)
      requires InGrid(newFood)
      modifies this
      ensures State() == Initial(newFood) && Valid()
    {
      snake := [Cell(Width / 2, Height / 2)];
      food := newFood;
      direction := "RIGHT";
      gameOver := false;
      score := 0;
      InitialInv(newFood);
    }

    /** One run of the page. `newFood` is the random cell the run would draw. */
    method Run(click: Click, newFood: Cell)
      requires Valid() && InGrid(newFood)
      modifies this
      ensures State() == Rerun(old(State()), click, newFood) && Valid()
    {
      if !gameOver {
        MoveSnake(newFood);
        if click.Arrow? {
          Press(click.button);
        }
      } else if click == RestartClick {
        Restart(newFood);
      }
    }
  }

  // ---------------------------------------------------------------------------
  // Properties

  /** A new session starts with the single cell (10, 10), heading right, score 0. */
  lemma InitialInv(food: Cell)
    requires InGrid(food)
    ensures Inv(Initial(food))
    ensures Initial(food).snake == [Cell(10, 10)] && Initial(food).direction == "RIGHT"
    ensures Initial(food).score == 0 && !Initial(food).gameOver
  {
  }

  /** Any direction name other than UP, DOWN and LEFT moves right, wrapping at the edge. */
  lemma UnknownDirectionMovesRight(head: Cell, direction: string)
    requires direction != "UP" && direction != "DOWN" && direction != "LEFT"
    ensures NextHead(head, direction) == NextHead(head, "RIGHT")
    ensures NextHead(Cell(Width - 1, head.y), direction) == Cell(0, head.y)
  {
  }

  /** Moving off any cell of an edge re-enters at the opposite edge, in the same
      column or row. */
  lemma WrapAround(x: int, y: int)
    requires 0 <= x < Width && 0 <= y < Height
    ensures NextHead(Cell(Width - 1, y), "RIGHT") == Cell(0, y)
    ensures NextHead(Cell(0, y), "LEFT") == Cell(Width - 1, y)
    ensures NextHead(Cell(x, 0), "UP") == Cell(x, Height - 1)
    ensures NextHead(Cell(x, Height - 1), "DOWN") == Cell(x, 0)
  {
  }

  /** `move_snake` keeps the cells on the grid and pairwise distinct, and the score
      equal to the number of cells eaten, i.e. the length less one. */
  lemma MovedInv(s: GameState, newFood: Cell)
    requires Inv(s) && InGrid(newFood)
    ensures Inv(Moved(s, newFood))
  {
    var h := NextHead(s.snake[0], s.direction);
    if h !in s.snake {
      var body := if h == s.food then s.snake else s.snake[..|s.snake| - 1];
      assert forall i :: 0 <= i < |body| ==> body[i] in s.snake;
      assert Distinct([h] + body) by {
        forall i, j | 0 <= i < j < |[h] + body| ensures ([h] + body)[i] != ([h] + body)[j] {
          if i > 0 {
            assert ([h] + body)[i] == body[i - 1] && ([h] + body)[j] == body[j - 1];
          }
        }
      }
    }
  }

  /** A hit: only the game-over flag changes; snake, food and score stay. */
  lemma MovedHit(s: GameState, newFood: Cell)
    requires Inv(s)
    requires NextHead(s.snake[0], s.direction) in s.snake
    ensures Moved(s, newFood) == s.(gameOver := true)
  {
  }

  /** Moving into the cell the tail occupies counts as a hit, because the check
      happens before the tail is dropped. */
  lemma TailCellIsHit(s: GameState, newFood: Cell)
    requires Inv(s)
    requires NextHead(s.snake[0], s.direction) == s.snake[|s.snake| - 1]
    ensures Moved(s, newFood).gameOver
    ensures Moved(s, newFood).snake == s.snake
  {
  }

  /** Without hit and without food the length stays the same: the new head is in
      front and every segment takes the place of the one before it. */
  lemma MovedSlides(s: GameState, newFood: Cell)
    requires Inv(s)
    requires NextHead(s.snake[0], s.direction) !in s.snake
    requires NextHead(s.snake[0], s.direction) != s.food
    ensures |Moved(s, newFood).snake| == |s.snake|
    ensures Moved(s, newFood).snake[0] == NextHead(s.snake[0], s.direction)
    ensures forall i :: 0 <= i < |s.snake| - 1 ==> Moved(s, newFood).snake[i + 1] == s.snake[i]
    ensures Moved(s, newFood).score == s.score && Moved(s, newFood).food == s.food
    ensures Moved(s, newFood).gameOver == s.gameOver
  {
  }

  /** Eating: exactly one more cell, exactly one more point, and new food on the grid. */
  lemma MovedEats(s: GameState, newFood: Cell)
    requires Inv(s) && InGrid(newFood)
    requires NextHead(s.snake[0], s.direction) !in s.snake
    requires NextHead(s.snake[0], s.direction) == s.food
    ensures |Moved(s, newFood).snake| == |s.snake| + 1
    ensures Moved(s, newFood).score == s.score + 1
    ensures Moved(s, newFood).snake[1..] == s.snake
    ensures InGrid(Moved(s, newFood).food) && Moved(s, newFood).gameOver == s.gameOver
  {
  }

  /** No button turns the snake back onto itself: one step in the old direction
      followed by one in the steered direction never returns to the start. */
  lemma SteerNeverReverses(head: Cell, direction: string, b: Button)
    requires InGrid(head) && ValidDirection(direction)
    ensures NextHead(NextHead(head, direction), Steer(direction, b)) != head
  {
    var d := Steer(direction, b);
    var mid := NextHead(head, direction);
    var back := NextHead(mid, d);
    if d == direction {
      if direction == "UP" || direction == "DOWN" {
        assert back.x == head.x && back.y != head.y;
      } else {
        assert back.y == head.y && back.x != head.x;
      }
    }
  }

  /** Each arrow is refused exactly when it is the reverse of the current direction. */
  lemma SteerRules(direction: string)
    ensures Steer(direction, UpButton) == (if direction == "DOWN" then direction else "UP")
    ensures Steer(direction, LeftButton) == (if direction == "RIGHT" then direction else "LEFT")
    ensures Steer(direction, RightButton) == (if direction == "LEFT" then direction else "RIGHT")
    ensures Steer(direction, DownButton) == (if direction == "UP" then direction else "DOWN")
  {
  }

  /** Every run of the page keeps the invariant. */
  lemma RerunInv(s: GameState, click: Click, newFood: Cell)
    requires Inv(s) && InGrid(newFood)
    ensures Inv(Rerun(s, click, newFood))
  {
    MovedInv(s, newFood);
  }

  /** Once the game is over, a run without Restart changes nothing; Restart restores
      exactly the initial snake, direction, score and flag. */
  lemma GameOverFreezes(s: GameState, click: Click, newFood: Cell)
    requires Inv(s) && s.gameOver
    ensures click != RestartClick ==> Rerun(s, click, newFood) == s
    ensures click == RestartClick ==> Rerun(s, click, newFood) == Initial(newFood)
  {
  }
}
