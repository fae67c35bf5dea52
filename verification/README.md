# Memory Mosaic puzzle engine in Dafny

This project models the puzzle engine of the Memory Mosaic service (`server.js`).
Users store memories, either text or an image URL. The server derives a puzzle from a
memory, and users send attempts until the puzzle is complete, which credits tokens
to their wallet. The model covers four parts:

- memory validation (`/memories`);
- puzzle creation (`/puzzles`): the mode and kind checks, the image grid size
  `clamp(difficulty + 2, 2, 6)`, the in-place Fisher-Yates shuffle of the tiles, and
  the initial state and rewards;
- attempt resolution (`/puzzles/:id/attempt`): the text-blanks latch and the
  image-scramble swap, with their progress arithmetic;
- the reward trigger and the attempt log.

Layout, one module per component:

- `errors.dfy` (`Errors`): `Option`, `Result` and the handlers' error answers.
- `rounding.dfy` (`Rounding`): `Math.round`, `Math.min` and `Math.max` on integers.
  For `p >= 0` and `q > 0`, `Math.round(p / q)` is `(2p + q) / (2q)` in integer
  division.
- `memories.dfy` (`Memories`): the memory record and its validation.
- `boards.dfy` (`Boards`): blanks, board values, the grid size, the shuffle (a
  specification function and the in-place loop), and the count of tiles at home.
- `resolver.dfy` (`Resolver`): both resolvers as pure functions over board values,
  with lemmas about them.
- `puzzles.dfy` (`Puzzles`): the `Puzzle` class (its board arrays are updated in
  place), the `User` wallet, the `AttemptLog`, creation and the attempt method. Each
  method's postcondition ties the new state to the `Resolver` functions.
- `sessions.dfy` (`Sessions`): client code that uses only those contracts to replay
  a two-blank session, a 6x6 image session and a rejected creation.

Three behaviours of the code are easy to miss. The model follows the code in each case.

- Solving every blank does not always complete a text puzzle. Each hit adds
  `round(100 / k)` for `k` blanks, so the final progress is
  `min(100, k * round(100 / k))`. With 3 blanks that is 99, with 7 blanks 98. Such a
  puzzle never reaches 100 and never pays a reward (`ThreeBlanksStopAt99`,
  `AllSolvedProgress`).
- A new image puzzle starts at progress 0, however many tiles the shuffle left in
  place (`ShuffleCanLeaveTilesHome`). So the first attempt, even swapping a tile with
  itself, can report `ok` with a positive delta (`TwoByTwoExample`). A no-op swap
  reports delta 0 only once progress matches the tiles (`NoOpSwap`).
- The reward fires on every attempt that leaves progress at exactly 100, including
  repeats and misses. The bonus is the raw difficulty, so a negative difficulty
  lowers the reward.

## Model

| member | source | states |
|---|---|---|
| `Rounding.RoundDiv` | server.js:236 | The result is the integer nearest to p/q, with an exact half rounded up, like `Math.round` on a non-negative quotient. |
| `Rounding.RoundDivUnique` | server.js:251 | Only one integer is within half of p/q with ties up, so the rounding is well defined. |
| `Rounding.Percent` | server.js:251 | `round(100 * correct / total)` lies in 0..100 and is 0 when nothing is correct. |
| `Rounding.PercentFull` | server.js:251 | With fewer than 200 items, the percentage is 100 exactly when every item is correct. |
| `Memories.ValidateMemory` | server.js:123-127 | Accepts exactly type "text", or type "image" with data starting "http://" or "https://" (missing data reads as ""); rejects with the type error first, then the URL error. |
| `Memories.AcceptedImageIsUrl` | server.js:126 | Accepted image data is present, starts with "http", has at least 7 characters, and has ':' or 's' after "http". |
| `Memories.ValidationExamples` | server.js:123-127 | Another scheme, a bare host and missing data are refused for images. Text needs no data. An unknown type is refused. |
| `Boards.GridSize` | server.js:185 | The grid side is always in 2..6. It is difficulty + 2 for difficulty in 0..4, 6 at or above 4, and 2 at or below 0. |
| `Boards.Swap` | server.js:249 | The destructuring swap `[s[i], s[j]] = [s[j], s[i]]` keeps the length. What it exchanges is stated in `SwapExchanges`. |
| `Boards.SwapExchanges` | server.js:189 | A swap exchanges the two entries, leaves every other position alone, and keeps the multiset of values. |
| `Boards.Pick` | server.js:188 | The random index for position i is in [0, i]. |
| `Boards.FisherYates` | server.js:187-190 | The shuffle loop from position i down to 1, each step swapping i with its pick, keeps the number of tiles. Its values are kept by `FisherYatesPermutes`. |
| `Boards.FisherYatesPermutes` | server.js:187-190 | Any number of shuffle steps keeps the multiset of tile values. |
| `Boards.InitialTiles` | server.js:186-190 | A fresh board of `len` cells has exactly `len` tiles. |
| `Boards.ShuffleIsPermutation` | server.js:186-190 | Whatever the random picks, the fresh tiles are a permutation of 0..len-1. |
| `Boards.ShuffleCanLeaveTilesHome` | server.js:186-190 | The shuffle can leave tiles in place: one run on a 2x2 grid gives `[0, 1, 3, 2]`. |
| `Boards.ShuffleInPlace` | server.js:187-190 | The in-place loop leaves the array equal to the shuffle function of its old contents. |
| `Boards.NewTiles` | server.js:186-190 | Returns a fresh array of n*n tiles: `0..n*n-1` shuffled. |
| `Boards.HomesBelow` | server.js:250 | The running count of tiles at home never exceeds the number of positions scanned. |
| `Boards.HomeCount` | server.js:250 | The `reduce` count of tiles equal to their index never exceeds the number of tiles. |
| `Boards.HomesBelowAll` | server.js:250 | The count over the first k positions is k exactly when each of them holds its own index. |
| `Boards.AllHomeIffSolved` | server.js:250 | The count of tiles at home is full exactly when the tiles are `[0, 1, ..., len-1]`. |
| `Resolver.BlankStep` | server.js:235-236 | One blank is worth `round(100 / total)`. It is at most 100, 100 for a single blank, and 0 exactly when there are more than 200 blanks. |
| `Resolver.TextResolve` | server.js:227-238 | Rejects exactly a missing or out-of-range blank index, with the blank-index error. The blank count is kept. Delta is the blank step on a hit and 0 otherwise. |
| `Resolver.TextHit` | server.js:232-237 | A hit is exactly a matching choice on an unlocked blank. It locks that blank only, keeping answer and choices, and sets progress to `min(100, old + step)`. |
| `Resolver.TextMiss` | server.js:231-238 | A wrong choice, or any choice on a locked blank, gives ok false and delta 0, and leaves board and progress unchanged. |
| `Resolver.TextLatch` | server.js:232-234 | After any text attempt, locked blanks are still locked, and no blank's answer or choices change. |
| `Resolver.TextProgressMonotone` | server.js:236-237 | Text progress never decreases and never exceeds 100. |
| `Resolver.FreshAccounted` | server.js:204 | A new text puzzle with no locked blank starts at progress 0, which is one step per locked blank. |
| `Resolver.TextKeepsAccount` | server.js:231-238 | Every text attempt keeps progress equal to `min(100, lockedCount * step)`. |
| `Resolver.AllSolvedProgress` | server.js:235-237 | When every blank is locked, progress is `min(100, k * round(100 / k))`, not always 100. |
| `Resolver.ThreeBlanksStopAt99` | server.js:235-237 | A three-blank puzzle never passes 99 and ends at exactly 99, so it never reaches the reward. |
| `Resolver.TwoBlanksExample` | server.js:226-238 | With two blanks, each hit gives delta 50. The second hit reaches 100. Re-sending a solved blank is a miss. |
| `Resolver.ImageResolve` | server.js:240-254 | Rejects exactly a missing, negative or too-large index. Otherwise the board is the swapped tiles, progress is the rounded share of tiles at home, in 0..100, delta is new minus old, and ok means delta > 0. |
| `Resolver.ImageKeepsPermutation` | server.js:249 | An image attempt keeps the tiles a permutation. |
| `Resolver.ImageSolvedIff` | server.js:250-251 | After an image attempt on fewer than 200 tiles, progress is 100 exactly when the tiles are in solved order. |
| `Resolver.NoOpSwap` | server.js:249-253 | Swapping a tile with itself leaves the tiles unchanged. If progress already matched the tiles, ok is false and delta is 0. |
| `Resolver.TwoByTwoExample` | server.js:249-253 | `[0, 1, 3, 2]` shows 50 on its first attempt, even a no-op swap from progress 0. Swapping the last two tiles then gives 100 with delta 50. |
| `Resolver.ImageProgressCanFall` | server.js:251-254 | Breaking a solved 2x2 grid drops progress from 100 to 50, with ok false and delta -50. |
| `Resolver.Resolve` | server.js:226-255 | Dispatches on the board's mode and keeps it. Errors are mode-specific. Image grid size, URL and tile count are kept. Progress stays in 0..100. |
| `Puzzles.ParseMode` | server.js:164-165 | Only "text_blanks" and "image_scramble" are modes. |
| `Puzzles.CheckCreate` | server.js:161-183 | Creation checks in source order: missing memory first, then invalid mode, then the kind mismatch for each mode. Success is exactly the memory's kind matching the mode. |
| `Puzzles.User.constructor` | server.js:47-55 | A user's wallet starts with the given id and token balance. The balance is the field `Attempt` credits. |
| `Puzzles.AttemptLog.constructor` | server.js:35 | The attempt log starts empty. `Attempt` only ever appends to it. |
| `Puzzles.Puzzle.constructor` | server.js:198-207 | A new puzzle has state `{progress 0, solvedCount 0, attempts 0}` and rewards `{base 5, bonus difficulty}`, and satisfies the invariant. |
| `Puzzles.Puzzle.Attempt` | server.js:219-276 | A rejected attempt changes nothing. Otherwise: attempts +1; board and progress as the mode's resolver computes; at progress exactly 100, solvedCount +1 and user tokens + base + bonus; exactly one log record. The invariant is kept. |
| `Puzzles.Puzzle.ResolveText` | server.js:226-238 | The in-place text branch matches `TextResolve` (the blank array is updated) and keeps the invariant. |
| `Puzzles.Puzzle.ResolveImage` | server.js:239-255 | The in-place image branch matches `ImageResolve` (the tile array is swapped in place) and keeps the invariant. |
| `Puzzles.CreatePuzzle` | server.js:159-210 | A failed check, or a failed text generation, creates nothing and returns the matching error. Otherwise the new puzzle is valid and in its initial state. Its board is the generated blanks, or a shuffled `GridSize(difficulty)` grid with the memory's URL. Difficulty defaults to 2. |

## Left out

- HTTP plumbing is not modelled: Express routing, CORS, JSON bodies, static serving, status codes (errors are `Error` values).
- Socket.io `emitPuzzleUpdate` is not modelled: it is a real-time transport whose failure does not affect the result.
- Authentication, register/login, sessions, `/me`, `/feed`, `/wallet`, `GET /memories/:id` and `GET /puzzles` are not modelled: they are auth plumbing or plain reads.
- The text-analysis `fetch` is a foreign network call. Its result is the parameter `generated` (None when it throws), taken as given, `locked` fields included.
- `Math.random` is the parameter `draw`. Position i picks `draw(i) % (i + 1)`, which can be any index in [0, i]. The distribution is not modelled.
- Floating point is not modelled. Rounding uses the exact quotient, with no binary rounding error.
- `uuidv4` and `now()` are not modelled, so attempt records carry no id or timestamp. The puzzle id is a parameter.
- Puzzle and memory storage is not modelled as maps of puzzles: `Attempt` takes the puzzle object (the 404 lookup is not modelled), `CreatePuzzle` returns the puzzle instead of storing it, and memories are a given map.
- The memory record's title, description, tags, visibility and timestamp are not modelled. Only the fields the engine reads are kept. A missing `data` is modelled as "".
- JavaScript coercions are not modelled. Indices and difficulty are integers. A string or fractional index, a string difficulty (which would make the token credit a string concatenation) and a generator reply without `blanks` are outside the model.
- `Attempt` is atomic. Node runs each handler to completion, so no interleaving is modelled.
- The reply's board is a value copy of the board, not the live object the server serializes.
