/** The Snake game's state machine: the snake on a grid of cells, the food
    cell, the score and the game-over flag. Rendering, keyboard handling,
    the frame loop and the random number generator are not part of it. */
module SnakeGame {

  // The window is 800 x 600 pixels, cut into 20-pixel cells.
  const WINDOW_WIDTH := 800
  const WINDOW_HEIGHT := 600
  const GRID_SIZE := 20
  const GRID_WIDTH := WINDOW_WIDTH / GRID_SIZE
  const GRID_HEIGHT := WINDOW_HEIGHT / GRID_SIZE

  /** A grid cell, or a direction as a (dx, dy) step. */
  datatype Point = Point(x: int, y: int)

  const UP := Point(0, -1)
  const DOWN := Point(0, 1)
  const LEFT := Point(-1, 0)
  const RIGHT := Point(1, 0)

  /** Points scored for each food cell eaten. */
  const FOOD_SCORE := 10

  predicate IsDirection(d: Point) {
    d == UP || d == DOWN || d == LEFT || d == RIGHT
  }

  function Opposite(d: Point): Point {
    Point(-d.x, -d.y)
  }

  function Translate(p: Point, d: Point): Point {
    Point(p.x + d.x, p.y + d.y)
  }

  predicate InGrid(p: Point) {
    0 <= p.x < GRID_WIDTH && 0 <= p.y < GRID_HEIGHT
  }

  /** Two cells that share an edge. */
  predicate Adjacent(a: Point, b: Point) {
    (a.x == b.x && (a.y - b.y == 1 || b.y - a.y == 1))
    || (a.y == b.y && (a.x - b.x == 1 || b.x - a.x == 1))
  }

  /** The shape of a snake's body: at least one cell, every cell on the
      grid, no cell twice, and each cell next to the one before it. */
  ghost predicate WellFormedBody(cells: seq<Point>) {
    |cells| >= 1
    && (forall i :: 0 <= i < |cells| ==> InGrid(cells[i]))
    && (forall i, j :: 0 <= i < j < |cells| ==> cells[i] != cells[j])
    && (forall i :: 0 <= i < |cells| - 1 ==> Adjacent(cells[i], cells[i + 1]))
  }

  /** Numbers the grid cells row by row, from 0 to GRID_WIDTH * GRID_HEIGHT - 1. */
  function CellIndex(p: Point): int {
    p.y * GRID_WIDTH + p.x
  }

  lemma CellIndexBounds(a: Point, b: Point)
    requires InGrid(a) && InGrid(b)
    ensures 0 <= CellIndex(a) < GRID_WIDTH * GRID_HEIGHT
    ensures CellIndex(a) == CellIndex(b) ==> a == b
  {
    assert GRID_WIDTH == 40 && GRID_HEIGHT == 30;
  }

  function IndexSet(cells: seq<Point>): set<int> {
    if cells == [] then {} else {CellIndex(cells[0])} + IndexSet(cells[1..])
  }

  /** The numbers 0 .. n - 1. */
  function Below(n: nat): set<int> {
    if n == 0 then {} else {n - 1} + Below(n - 1)
  }

  lemma {:induction false} BelowContains(n: nat, k: int)
    ensures k in Below(n) <==> 0 <= k < n
  {
    if n > 0 {
      BelowContains(n - 1, k);
    }
  }

  lemma {:induction false} BelowSize(n: nat)
    ensures |Below(n)| == n
  {
    if n > 0 {
      BelowSize(n - 1);
      BelowContains(n - 1, n - 1);
    }
  }

  lemma SubsetSize(a: set<int>, b: set<int>)
    requires a <= b
    ensures |a| <= |b|
  {
    assert b == a + (b - a);
  }

  /** A cell not among cells has a number not among theirs. */
  lemma {:induction false} IndexFresh(p: Point, cells: seq<Point>)
    requires InGrid(p) && forall i :: 0 <= i < |cells| ==> InGrid(cells[i])
    requires p !in cells
    ensures CellIndex(p) !in IndexSet(cells)
  {
    if cells != [] {
      CellIndexBounds(p, cells[0]);
      IndexFresh(p, cells[1..]);
    }
  }

  lemma {:induction false} IndexSetSize(cells: seq<Point>)
    requires forall i :: 0 <= i < |cells| ==> InGrid(cells[i])
    requires forall i, j :: 0 <= i < j < |cells| ==> cells[i] != cells[j]
    ensures |IndexSet(cells)| == |cells|
    ensures IndexSet(cells) <= Below(GRID_WIDTH * GRID_HEIGHT)
  {
    if cells != [] {
      IndexSetSize(cells[1..]);
      CellIndexBounds(cells[0], cells[0]);
      BelowContains(GRID_WIDTH * GRID_HEIGHT, CellIndex(cells[0]));
      IndexFresh(cells[0], cells[1..]);
    }
  }

  /** A snake never has more cells than the grid: the body cells are
      distinct grid cells. */
  lemma BodyFitsGrid(cells: seq<Point>)
    requires WellFormedBody(cells)
    ensures |cells| <= GRID_WIDTH * GRID_HEIGHT
  {
    IndexSetSize(cells);
    BelowSize(GRID_WIDTH * GRID_HEIGHT);
    SubsetSize(IndexSet(cells), Below(GRID_WIDTH * GRID_HEIGHT));
  }

  class Snake {
    /** The body, head first. */
    var positions: seq<Point>
    var direction: Point
    /** Set when food was eaten: the next move keeps the tail. */
    var grow: bool

    ghost predicate Valid()
      reads this
    {
      WellFormedBody(positions) && IsDirection(direction)
    }

    /** A one-cell snake at the centre of the grid, heading right. */
    constructor ()
      ensures Valid()
      ensures positions == [Point(GRID_WIDTH / 2, GRID_HEIGHT / 2)]
      ensures direction == RIGHT && !grow
    {
      positions := [Point(GRID_WIDTH / 2, GRID_HEIGHT / 2)];
      direction := RIGHT;
      grow := false;
    }

    /** The cell the head steps into on the next move. */
    function NextHead(): Point
      reads this
      requires |positions| >= 1
    {
      Translate(positions[0], direction)
    }

    /** The next move neither leaves the grid nor runs into the body (the
        tail cell included, although it would be vacated). */
    predicate CanMove()
      reads this
      requires |positions| >= 1
    {
      InGrid(NextHead()) && NextHead() !in positions
    }

    /** One step: refused when the new head would leave the grid or hit the
        body; otherwise the new head is pushed, and the tail is dropped
        unless the snake is growing, in which case the flag is cleared. */
    method Move() returns (ok: bool)
      requires Valid()
      modifies this
      ensures Valid()
      ensures ok == old(CanMove())
      ensures direction == old(direction)
      ensures !ok ==> unchanged(this)
      ensures ok && !old(grow) ==>
                |positions| == old(|positions|)
                && positions == [old(NextHead())] + old(positions[..|positions| - 1])
      ensures ok && old(grow) ==>
                |positions| == old(|positions|) + 1
                && positions == [old(NextHead())] + old(positions)
      ensures ok ==> !grow
    {
      var head := positions[0];
      var newHead := Translate(head, direction);
      if newHead.x < 0 || newHead.x >= GRID_WIDTH || newHead.y < 0 || newHead.y >= GRID_HEIGHT {
        return false;
      }
      if newHead in positions {
        return false;
      }
      ghost var before := positions;
      assert Adjacent(newHead, before[0]);
      positions := [newHead] + positions;
      if !grow {
        positions := positions[..|positions| - 1];
      } else {
        grow := false;
      }
      assert positions[1..] == before[..|positions| - 1];
      assert forall i :: 1 <= i < |positions| ==> positions[i] == before[i - 1];
      return true;
    }

    /** Turns to d unless d points straight back. */
    method ChangeDirection(d: Point)
      requires Valid() && IsDirection(d)
      modifies this`direction
      ensures Valid()
      ensures Opposite(d) == old(direction) ==> direction == old(direction)
      ensures Opposite(d) != old(direction) ==> direction == d
      ensures direction != Opposite(old(direction))
    {
      if Opposite(d) != direction {
        direction := d;
      }
    }

    /** The next successful move keeps the tail. */
    method GrowSnake()
      requires Valid()
      modifies this`grow
      ensures Valid() && grow
    {
      grow := true;
    }
  }

  /** The first of the draws that lies outside cells, if there is one. */
  ghost predicate FirstOutside(draws: seq<Point>, cells: seq<Point>, k: int) {
    0 <= k < |draws| && draws[k] !in cells
    && forall j :: 0 <= j < k ==> draws[j] in cells
  }

  /** Where the food lands when it is placed again from start: while it lies
      on cells, it moves to the next draw, until the draws run out. */
  function Redraw(draws: seq<Point>, cells: seq<Point>, start: Point): Point {
    if start !in cells || |draws| == 0 then start else Redraw(draws[1..], cells, draws[0])
  }

  /** Starting on cells, the food ends off cells exactly when some draw is
      off them, and then at the first such draw; when every draw is on
      cells it ends at the last draw, or at start when there are none. */
  lemma {:induction false} RedrawSpec(draws: seq<Point>, cells: seq<Point>, start: Point)
    requires start in cells
    ensures Redraw(draws, cells, start) !in cells <==>
            exists k :: 0 <= k < |draws| && draws[k] !in cells
    ensures forall k :: FirstOutside(draws, cells, k) ==> Redraw(draws, cells, start) == draws[k]
    ensures (forall k :: 0 <= k < |draws| ==> draws[k] in cells) ==>
              Redraw(draws, cells, start) == if |draws| == 0 then start else draws[|draws| - 1]
  {
    if |draws| > 0 {
      var rest := draws[1..];
      if draws[0] in cells {
        RedrawSpec(rest, cells, draws[0]);
        assert forall k :: 0 <= k < |rest| ==> rest[k] == draws[k + 1];
        forall k | FirstOutside(draws, cells, k)
          ensures FirstOutside(rest, cells, k - 1)
        {
          assert k != 0;
        }
        if exists k :: 0 <= k < |draws| && draws[k] !in cells {
          var k :| 0 <= k < |draws| && draws[k] !in cells;
          assert rest[k - 1] !in cells;
        }
      } else {
        assert FirstOutside(draws, cells, 0);
      }
    }
  }

  class Food {
    var position: Point

    /** Food at a cell the random generator picked. */
    constructor (cell: Point)
      requires InGrid(cell)
      ensures position == cell
    {
      position := cell;
    }

    /** Draws the food again while it lies on cells: draws are the cells
        the random generator returns in turn. */
    method Replace(draws: seq<Point>, cells: seq<Point>)
      requires InGrid(position)
      requires forall i :: 0 <= i < |draws| ==> InGrid(draws[i])
      modifies this
      ensures InGrid(position)
      ensures position == Redraw(draws, cells, old(position))
    {
      var i := 0;
      while position in cells && i < |draws|
        invariant 0 <= i <= |draws|
        invariant InGrid(position)
        invariant Redraw(draws[i..], cells, position) == Redraw(draws, cells, old(position))
      {
        assert draws[i..][1..] == draws[i + 1..];
        position := draws[i];
        i := i + 1;
      }
    }
  }

  class Game {
    var snake: Snake
    var food: Food
    var score: int
    var gameOver: bool

    ghost predicate Valid()
      reads this, snake, food
    {
      snake.Valid() && InGrid(food.position) && score >= 0 && score % FOOD_SCORE == 0
    }

    /** A fresh game; the food cell is the random generator's first pick. */
    constructor (foodCell: Point)
      requires InGrid(foodCell)
      ensures Valid() && fresh(snake) && fresh(food)
      ensures snake.positions == [Point(GRID_WIDTH / 2, GRID_HEIGHT / 2)]
      ensures snake.direction == RIGHT && !snake.grow
      ensures food.position == foodCell && score == 0 && !gameOver
    {
      snake := new Snake();
      food := new Food(foodCell);
      score := 0;
      gameOver := false;
    }

    /** One frame. A finished game stays as it is. Otherwise the snake
        moves; a refused move ends the game. When the new head is on the
        food, the snake will grow, the score rises by FOOD_SCORE, and the
        food is placed again: draws are the cells the random generator
        returns in turn, taken until one lies outside the snake. */
    method Update(draws: seq<Point>)
      requires Valid()
      requires forall i :: 0 <= i < |draws| ==> InGrid(draws[i])
      modifies this, snake, food
      ensures Valid()
      ensures snake == old(snake) && food == old(food)
      ensures old(gameOver) ==>
                gameOver && score == old(score)
                && unchanged(snake) && food.position == old(food.position)
      ensures !old(gameOver) && !old(snake.CanMove()) ==>
                gameOver && score == old(score)
                && unchanged(snake) && food.position == old(food.position)
      ensures !old(gameOver) && old(snake.CanMove()) ==>
                !gameOver
                && snake.direction == old(snake.direction)
                && snake.positions == [old(snake.NextHead())]
                                      + (if old(snake.grow) then old(snake.positions)
                                         else old(snake.positions[..|snake.positions| - 1]))
      ensures !old(gameOver) && old(snake.CanMove()) && old(snake.NextHead()) != old(food.position) ==>
                score == old(score) && !snake.grow && food.position == old(food.position)
      ensures !old(gameOver) && old(snake.CanMove()) && old(snake.NextHead()) == old(food.position) ==>
                score == old(score) + FOOD_SCORE && snake.grow
                && (food.position !in snake.positions <==>
                    exists k :: 0 <= k < |draws| && draws[k] !in snake.positions)
                && (forall k :: FirstOutside(draws, snake.positions, k) ==> food.position == draws[k])
                && ((forall k :: 0 <= k < |draws| ==> draws[k] in snake.positions) ==>
                      food.position == if |draws| == 0 then old(food.position) else draws[|draws| - 1])
                && food.position == Redraw(draws, snake.positions, old(food.position))
    {
      if !gameOver {
        var moved := snake.Move();
        if !moved {
          gameOver := true;
          return;
        }
        assert snake.positions[0] == old(snake.NextHead());
        ghost var body := snake.positions;
        if snake.positions[0] == food.position {
          snake.GrowSnake();
          score := score + FOOD_SCORE;
          food.Replace(draws, snake.positions);
          assert snake.positions == body;
          RedrawSpec(draws, body, old(food.position));
          assert snake.Valid() && snake.grow && score == old(score) + FOOD_SCORE;
        }
      }
    }

    /** Starts over: a new snake, new food (the random generator's pick),
        score 0, game running. */
    method RestartGame(foodCell: Point)
      requires InGrid(foodCell)
      modifies this
      ensures Valid() && fresh(snake) && fresh(food)
      ensures snake.positions == [Point(GRID_WIDTH / 2, GRID_HEIGHT / 2)]
      ensures snake.direction == RIGHT && !snake.grow
      ensures food.position == foodCell && score == 0 && !gameOver
    {
      snake := new Snake();
      food := new Food(foodCell);
      score := 0;
      gameOver := false;
    }
  }
}
