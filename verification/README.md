# Prime calculator and Snake game, modelled in Dafny

The repository holds two small Python programs. The model covers the core of each.

**Prime calculator.** It prints the first 100 primes.
- `is_prime` decides primality by trial division. It rejects numbers below 2 and accepts 2. It rejects every other even number. For an odd number it tries the odd divisors 3, 5, 7, … whose square does not exceed the number.
- `get_first_n_primes` rejects a non-positive count. Otherwise it walks the candidates upward from 2 and appends each one `is_prime` accepts, until the list holds n primes.

`primes.dfy` (module `Primes`) models both operations as methods with the source's own loops. Each method is proved against the mathematical definition of a prime:
- `IsPrime` answers exactly `Prime(n)`.
- `FirstNPrimes` returns a list of length n that is strictly ascending, holds only primes and misses no prime below its last element.

Termination of the candidate walk rests on Euclid's theorem, which is proved as `PrimeAtOrAbove`. Lemmas about the result show the following:
- Only one such list exists for each length.
- It starts with 2.
- The first five primes are 2, 3, 5, 7 and 11.
- The hundredth prime is 541. The proof counts the primes below 542 with `is_prime`'s own decision procedure.

**Snake game.** A snake moves on a 40 × 30 grid of 20-pixel cells. `snake.dfy` (module `SnakeGame`) keeps the source's classes as Dafny classes, whose methods update fields in place:
- `Snake` has a body list (head first), a direction and a grow flag. A move is refused when the new head would leave the grid or land on the body, tail included. Otherwise the new head is pushed, and the tail is dropped unless the snake is growing. A turn straight back is ignored.
- `Food` holds one cell.
- `Game` holds the snake, the food, the score and the game-over flag. One `update` moves the snake and ends the game on a refused move. On eating, it sets the grow flag, adds 10 points and redraws the food until it lies off the snake. `restart_game` starts over.

Every method preserves the class invariant:
- The body is non-empty and lies in the grid.
- Its cells are pairwise distinct.
- Consecutive cells share an edge.
- The direction is one of the four unit steps.
- The food is on the grid.
- The score is a non-negative multiple of 10.

Each method's postcondition states the complete new state. `BodyFitsGrid` shows that a body with this shape never holds more cells than the grid has.

The random number generator is a parameter. The food cell of the constructor and of `RestartGame` is passed in. `Update` receives the sequence of cells the generator would return, in order.

## Model

| member | source | states |
|---|---|---|
| Primes.IsPrime | prime_calculator.py:27-64 | n < 2 gives false, 2 gives true, other even numbers give false, and an odd n > 2 gives true exactly when no odd i with 3 <= i and i*i <= n divides n. The result equals `Prime(n)`: n >= 2 and n has no divisor in [2, n). |
| Primes.TrialPrimeCorrect | prime_calculator.py:45-64 | The branch-by-branch decision of is_prime agrees with primality for every integer. |
| Primes.TrialDivisionSound | prime_calculator.py:57-64 | For odd n >= 3, having no odd divisor i with i*i <= n is equivalent to being prime. A larger divisor always has a cofactor at or below the square root. |
| Primes.NoOddDivisorFromSpec | prime_calculator.py:60-62 | The trial loop started at odd i rejects n exactly when some odd j >= i with j*j <= n divides n. Stopping once the square exceeds n skips no divisor. |
| Primes.FirstNPrimes | prime_calculator.py:66-98 | n <= 0 gives the invalid-argument error, and only then. For n > 0 the result has exactly n elements, ascends strictly, holds only primes and leaves out no prime below its last element. |
| Primes.PrimeAtOrAbove | prime_calculator.py:93-96 | Every integer has a prime at or above it (Euclid), so the candidate walk always reaches another prime. |
| Primes.PrimesBelowSpec | prime_calculator.py:89-96 | The list the loop has built when the candidate reaches c is strictly ascending and holds exactly the primes below c. |
| Primes.PrimesBelowIsFirst | prime_calculator.py:89-98 | That list is an initial segment of the primes: all prime, ascending, no prime skipped. |
| Primes.FirstPrimesUnique | prime_calculator.py:89-98 | Two initial segments of the primes of equal length are equal, so the result is determined by n. |
| Primes.NextPrimeAtMost | prime_calculator.py:93-96 | In the result, the element after s[i] is at most any prime greater than s[i]. |
| Primes.FirstPrimeIsTwo | test_prime_calculator.py:88-93 | A non-empty result starts with 2. |
| Primes.FirstFivePrimes | test_prime_calculator.py:263-265 | The result for n = 5 is [2, 3, 5, 7, 11]. |
| Primes.HundredthPrime | test_prime_calculator.py:107-112 | The 100th element of the result for n = 100 is 541. |
| Primes.PrimeCountBelow542 | test_prime_calculator.py:107-112 | There are exactly 100 primes below 542, counted with is_prime's decision. |
| Primes.PrimesBelowLength | prime_calculator.py:89-96 | The number of primes the loop has collected below c equals the count of primes in [2, c). |
| SnakeGame.BodyFitsGrid | snake_game.py:34-54 | A body whose cells are distinct grid cells has at most GRID_WIDTH * GRID_HEIGHT = 1200 cells. |
| SnakeGame.Snake.constructor | snake_game.py:29-32 | The snake starts as the single cell (20, 15) at the grid centre, heading right, not growing. |
| SnakeGame.Snake.Move | snake_game.py:34-54 | The move succeeds exactly when the next head is in the grid and not on the body. A refused move changes nothing. A successful move gives [new head] + body without its tail, or + the whole body when growing, and then clears the grow flag. The body stays well formed and the direction is unchanged. |
| SnakeGame.Snake.ChangeDirection | snake_game.py:56-59 | The snake takes the new direction unless it is the exact opposite of the current one. It never ends up heading opposite to its previous direction. |
| SnakeGame.Snake.GrowSnake | snake_game.py:61-62 | Sets the grow flag and changes nothing else. |
| SnakeGame.Food.constructor | snake_game.py:79-86 | The food sits at the generator's cell, which lies in the grid. |
| SnakeGame.Food.Replace | snake_game.py:137-139 | The food-placement loop of `update`: it keeps drawing while the food lies on the given cells and the draws last. It ends at `Redraw` of the draws, the cells and the old food cell, and the food stays on the grid. |
| SnakeGame.RedrawSpec | snake_game.py:137-139 | Starting from a cell on the snake, the food ends off the snake exactly when some draw is off it, and then at the first such draw. When every draw is on the snake, it ends at the last draw, or where it started when there are no draws. |
| SnakeGame.Game.constructor | snake_game.py:96-104 | A new game has the initial snake, food at the generator's cell, score 0 and the game running. |
| SnakeGame.Game.Update | snake_game.py:127-139 | Once the game is over, nothing changes. A refused move sets game over and leaves the score, the snake and the food as they were. A successful move updates the body as Move does. When the new head is not on the food, the score and the food stay. When it is on the food, the score rises by 10, the snake will grow, and the food moves to `Redraw` of the draws, the new body and the old food cell: the first draw off the snake. The food ends off the snake exactly when some draw lies off it. When no draw lies off it, the food ends at the last draw, or stays where it was when there are no draws. The invariant (score a multiple of 10, food on the grid, body well formed) is kept. |
| SnakeGame.Game.RestartGame | snake_game.py:166-170 | Fresh snake and food, score 0, game running: the same state as a new game. |

## Left out

- prime_calculator.py:100-139 (`main`): console output and timing only.
- The argument type check in `get_first_n_primes` (prime_calculator.py:86): the model's argument is an integer, so only the `n <= 0` half remains. The error is the value `Err(NotPositive)`; the exception's message text is not modelled.
- test_prime_calculator.py expects an upper limit of 10000 and French error messages. prime_calculator.py has neither, so the model follows the code: any positive n is accepted.
- Primes.IsPrime: the loop bound `int(n**0.5)` (prime_calculator.py:60) turns n into a float, and the model uses the exact test `i * i <= n` instead. Two float behaviours are left out:
  - For odd n >= 2**1024 the conversion raises OverflowError ("int too large to convert to float"), where the model returns `Prime(n)`.
  - Below that limit, the float root for very large n can be rounded. The model agrees with the source wherever the root is exact.
- Apart from that float conversion, the source computes on Python's unbounded integers, like Dafny's `int`. None of its integer arithmetic can overflow.
- All pygame code is omitted: window, clock, font, `draw`, `handle_events` and `run` (snake_game.py:64-77, 88-93, 106-125, 141-164, 172-186).
- `Food.generate_position` (snake_game.py:83-86) is left out because it draws from `random`. The drawn cell is a parameter, required to lie in the grid, which `randint(0, GRID_WIDTH - 1)` and `randint(0, GRID_HEIGHT - 1)` guarantee.
- SnakeGame.Game.Update: the food loop runs over the finite sequence of draws it is given. If every draw lies on the snake, the model stops and the food stays on the snake: at the last draw, or on the new head when there are no draws. The source keeps drawing until a free cell appears, and never stops when the snake fills the grid.
- SnakeGame.Food.Replace: the source writes the food-placement loop inline in `Game.update` (snake_game.py:138-139). Here it is a method of `Food` that `Update` calls. It updates the same state, the food's position, and nothing else.
- SnakeGame.Game.constructor and SnakeGame.Game.RestartGame: the first food cell may lie on the snake, as in the source. Neither promises it is off the snake.
- SnakeGame.Snake.ChangeDirection requires one of the four unit directions, which are the only values `handle_events` passes.
- Colours (snake_game.py:15-20) are used only for drawing.
