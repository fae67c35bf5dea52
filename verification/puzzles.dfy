/** The puzzle entity of the `/puzzles` handlers: creation from a stored memory,
    and the attempt operation that updates the board, the progress, the solved
    count, the acting user's token balance and the attempt log in place. */
module Puzzles {
  import opened Errors
  import opened Rounding
  import opened Boards
  import opened Memories
  import opened Resolver

  datatype Mode = TextBlanks | ImageScramble

  /** The request's `mode` string; anything but the two known names is invalid. */
  function ParseMode(mode: string): (m: Option<Mode>)
    ensures m == Some(TextBlanks) <==> mode == "text_blanks"
    ensures m == Some(ImageScramble) <==> mode == "image_scramble"
    ensures m.None? <==> mode != "text_blanks" && mode != "image_scramble"
  {
    if mode == "text_blanks" then Some(TextBlanks)
    else if mode == "image_scramble" then Some(ImageScramble)
    else None
  }

  /** The memory kind each mode is built from. */
  function RequiredKind(m: Mode): Kind {
    match m
    case TextBlanks => Text
    case ImageScramble => Image
  }

  /** The checks `/puzzles` makes before building a board, in the order it makes
      them: the memory exists, the mode is known, the memory's kind fits the mode. */
  function CheckCreate(memories: map<string, Memory>, memoryId: string, mode: string): (r: Result<Mode>)
    ensures r.Ok? <==>
      memoryId in memories && ParseMode(mode).Some? &&
      memories[memoryId].kind == RequiredKind(ParseMode(mode).value)
    ensures r.Ok? ==> ParseMode(mode) == Some(r.value)
    ensures memoryId !in memories ==> r == Err(MemoryNotFound)
    ensures memoryId in memories && ParseMode(mode).None? ==> r == Err(ModeInvalid)
    ensures r == Err(TextBlanksNeedsText) <==>
      memoryId in memories && mode == "text_blanks" && memories[memoryId].kind != Text
    ensures r == Err(ImageScrambleNeedsImage) <==>
      memoryId in memories && mode == "image_scramble" && memories[memoryId].kind != Image
  {
    if memoryId !in memories then Err(MemoryNotFound)
    else
      match ParseMode(mode)
      case None => Err(ModeInvalid)
      case Some(TextBlanks) =>
        if memories[memoryId].kind != Text then Err(TextBlanksNeedsText) else Ok(TextBlanks)
      case Some(ImageScramble) =>
        if memories[memoryId].kind != Image then Err(ImageScrambleNeedsImage) else Ok(ImageScramble)
  }

  /** The mutable board a puzzle owns: the blanks array, or the tile array of the grid. */
  datatype Board =
    | TextBoard(blanks: array<Blank>)
    | ImageBoard(n: int, tiles: array<int>, imageUrl: string)
  {
    function Repr(): set<object> {
      match this
      case TextBoard(blanks) => {blanks}
      case ImageBoard(_, tiles, _) => {tiles}
    }
  }

  /** One entry of the append-only attempt log. */
  datatype AttemptRecord = AttemptRecord(puzzleId: string, userId: string, action: Action, isCorrect: bool, deltaProgress: int)

  /** The body of the attempt response. */
  datatype Reply = Reply(ok: bool, delta: int, progress: int, board: BoardView)

  /** The acting user's wallet. */
  class User {
    const id: string
    var tokens: int

    constructor (id: string, tokens: int)
      ensures this.id == id && this.tokens == tokens
    {
      this.id := id;
      this.tokens := tokens;
    }
  }

  /** The store's attempt list, which only ever grows. */
  class AttemptLog {
    var records: seq<AttemptRecord>

    constructor ()
      ensures records == []
    {
      records := [];
    }
  }

  class Puzzle {
    const id: string
    const memoryId: string
    const mode: Mode
    const difficulty: int
    const board: Board
    const base: int
    const bonus: int
    var progress: int
    var solvedCount: nat
    var attempts: nat

    /** The puzzle invariant: the board fits the mode, progress is a percentage,
        and an image board is an n-by-n grid (n in 2..6) holding each tile once. */
    ghost predicate Valid()
      reads this, board.Repr()
    {
      (mode == TextBlanks <==> board.TextBoard?) &&
      0 <= progress <= 100 &&
      (board.ImageBoard? ==>
        2 <= board.n <= 6 && board.tiles.Length == board.n * board.n &&
        IsPermutation(board.tiles[..]))
    }

    /** The current board as a value. */
    function View(): BoardView
      reads this, board.Repr()
    {
      match board
      case TextBoard(blanks) => Blanks(blanks[..])
      case ImageBoard(n, tiles, url) => Tiles(n, tiles[..], url)
    }

    /** The record `/puzzles` stores: state `{progress 0, solvedCount 0, attempts 0}`
        and rewards `{base 5, bonus difficulty}`. */
    constructor (id: string, memoryId: string, mode: Mode, difficulty: int, board: Board)
      requires mode == TextBlanks <==> board.TextBoard?
      requires board.ImageBoard? ==>
        2 <= board.n <= 6 && board.tiles.Length == board.n * board.n &&
        IsPermutation(board.tiles[..])
      ensures Valid()
      ensures this.id == id && this.memoryId == memoryId && this.mode == mode
      ensures this.difficulty == difficulty && this.board == board
      ensures progress == 0 && solvedCount == 0 && attempts == 0
      ensures base == 5 && bonus == difficulty
    {
      this.id := id;
      this.memoryId := memoryId;
      this.mode := mode;
      this.difficulty := difficulty;
      this.board := board;
      base := 5;
      bonus := difficulty;
      progress := 0;
      solvedCount := 0;
      attempts := 0;
    }

    /** `/puzzles/:id/attempt`. A rejected index changes nothing. Otherwise the
        attempt counter goes up, the board and progress become what the mode's
        resolver computes, a resulting progress of exactly 100 adds one solve and
        credits `base + bonus` tokens (again on every such attempt), and exactly
        one record is appended to the log. */
    method Attempt(action: Action, user: User, log: AttemptLog) returns (r: Result<Reply>)
      requires Valid()
      modifies this, board.Repr(), user, log
      ensures Valid()
      ensures var res := Resolve(old(View()), old(progress), action);
        if res.Err? then
          r == Err(res.error) &&
          View() == old(View()) && progress == old(progress) &&
          solvedCount == old(solvedCount) && attempts == old(attempts) &&
          user.tokens == old(user.tokens) && log.records == old(log.records)
        else
          var paid := res.value.progress == 100;
          View() == res.value.board && progress == res.value.progress &&
          attempts == old(attempts) + 1 &&
          solvedCount == old(solvedCount) + (if paid then 1 else 0) &&
          user.tokens == old(user.tokens) + (if paid then base + bonus else 0) &&
          log.records == old(log.records) + [AttemptRecord(id, user.id, action, res.value.ok, res.value.delta)] &&
          r == Ok(Reply(res.value.ok, res.value.delta, progress, View()))
    {
      var res: Result<Resolution>;
      if mode == TextBlanks {
        res := ResolveText(action);
      } else {
        res := ResolveImage(action);
      }
      if res.Err? {
        return Err(res.error);
      }
      if progress == 100 {
        solvedCount := solvedCount + 1;
        user.tokens := user.tokens + base + bonus;
      }
      log.records := log.records + [AttemptRecord(id, user.id, action, res.value.ok, res.value.delta)];
      r := Ok(Reply(res.value.ok, res.value.delta, progress, View()));
    }

    /** The text-blanks branch of the attempt: index check, attempt count, then
        the latch and the capped progress step, as `TextResolve` describes. */
    method ResolveText(action: Action) returns (res: Result<Resolution>)
      requires Valid() && mode == TextBlanks
      modifies this, board.Repr()
      ensures Valid() && solvedCount == old(solvedCount)
      ensures res == Resolve(old(View()), old(progress), action)
      ensures res.Err? ==> View() == old(View()) && progress == old(progress) && attempts == old(attempts)
      ensures res.Ok? ==>
        View() == res.value.board && progress == res.value.progress && attempts == old(attempts) + 1
    {
      var blanks := board.blanks;
      if !ValidIndex(action.blankIdx, blanks.Length) {
        return Err(InvalidBlankIdx);
      }
      var k := action.blankIdx.value;
      var blank := blanks[k];
      var ok, delta := false, 0;
      attempts := attempts + 1;
      if action.choice == Some(blank.answer) && !blank.locked {
        ok := true;
        blanks[k] := blank.(locked := true);
        var total := blanks.Length;
        delta := BlankStep(total);
        progress := Min(100, progress + delta);
      }
      res := Ok(Resolution(View(), progress, ok, delta));
    }

    /** The image-scramble branch of the attempt: index check, attempt count, the
        in-place swap, then progress recomputed from the tiles at home, as
        `ImageResolve` describes. */
    method ResolveImage(action: Action) returns (res: Result<Resolution>)
      requires Valid() && mode == ImageScramble
      modifies this, board.Repr()
      ensures Valid() && solvedCount == old(solvedCount)
      ensures res == Resolve(old(View()), old(progress), action)
      ensures res.Err? ==> View() == old(View()) && progress == old(progress) && attempts == old(attempts)
      ensures res.Ok? ==>
        View() == res.value.board && progress == res.value.progress && attempts == old(attempts) + 1
    {
      var tiles := board.tiles;
      if !ValidIndex(action.from, tiles.Length) || !ValidIndex(action.to, tiles.Length) {
        return Err(InvalidIndices);
      }
      var from, to := action.from.value, action.to.value;
      ghost var before := tiles[..];
      attempts := attempts + 1;
      tiles[from], tiles[to] := tiles[to], tiles[from];
      assert tiles[..] == Swap(before, from, to);
      SwapExchanges(before, from, to);
      var correct := HomeCount(tiles[..]);
      var newProgress := Percent(correct, tiles.Length);
      var ok := newProgress > progress;
      var delta := newProgress - progress;
      progress := newProgress;
      res := Ok(Resolution(View(), progress, ok, delta));
    }
  }

  /** `/puzzles`: run the checks, then build the board. A text board is what the
      text-analysis service returned (None when the call failed); an image board
      is the shuffled grid of `GridSize(difficulty)` with the memory's URL. A
      missing difficulty defaults to 2. No puzzle is created on any error. */
  method CreatePuzzle(id: string, memories: map<string, Memory>, memoryId: string, mode: string,
                      difficulty: Option<int>, generated: Option<seq<Blank>>, draw: nat -> nat)
    returns (r: Result<Puzzle>)
    ensures var check := CheckCreate(memories, memoryId, mode);
      (check.Err? ==> r == Err(check.error)) &&
      (check == Ok(TextBlanks) ==> (r.Err? <==> generated.None?)) &&
      (check == Ok(TextBlanks) && generated.None? ==> r == Err(BoardGenerationFailed)) &&
      (check == Ok(ImageScramble) ==> r.Ok?)
    ensures r.Ok? ==>
      var p := r.value;
      fresh(p) && fresh(p.board.Repr()) && p.Valid() &&
      p.id == id && p.memoryId == memoryId && Some(p.mode) == ParseMode(mode) &&
      p.difficulty == difficulty.GetOr(2) && p.bonus == difficulty.GetOr(2) && p.base == 5 &&
      p.progress == 0 && p.solvedCount == 0 && p.attempts == 0 &&
      (p.mode == TextBlanks ==> p.View() == Blanks(generated.value)) &&
      (p.mode == ImageScramble ==>
        p.board.n == GridSize(difficulty.GetOr(2)) && p.board.imageUrl == memories[memoryId].data &&
        p.board.tiles.Length >= 1 && p.board.tiles[..] == InitialTiles(p.board.tiles.Length, draw))
  {
    var d := difficulty.GetOr(2);
    var check := CheckCreate(memories, memoryId, mode);
    if check.Err? {
      return Err(check.error);
    }
    var memory := memories[memoryId];
    var board: Board;
    if check.value == TextBlanks {
      if generated.None? {
        return Err(BoardGenerationFailed);
      }
      var blanks := new Blank[|generated.value|](i requires 0 <= i < |generated.value| => generated.value[i]);
      board := TextBoard(blanks);
    } else {
      var n := GridSize(d);
      var tiles := NewTiles(n, draw);
      ShuffleIsPermutation(tiles.Length, draw);
      board := ImageBoard(n, tiles, memory.data);
    }
    var p := new Puzzle(id, memoryId, check.value, d, board);
    r := Ok(p);
  }
}
