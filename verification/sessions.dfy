/** Client sessions that use only the contracts of `Puzzles`: the two-blank
    walk-through of a text puzzle, a 6x6 image puzzle with a no-op swap and a
    rejected swap, and a rejected creation. */
module Sessions {
  import opened Errors
  import opened Boards
  import opened Memories
  import opened Resolver
  import opened Puzzles

  /** A text memory, a puzzle of difficulty 1 with two blanks: the first hit
      shows 50, the second 100 and pays `5 + 1` tokens once; re-sending the
      second answer is a miss that still leaves 100 and pays again. */
  method TwoBlankSession()
  {
    var memories := map["m1" := Memory("m1", "dev-user", Text, "The sky is blue.")];
    var blanks := [Blank("sky", ["sky", "sea"], false), Blank("blue", ["blue", "red"], false)];
    var created := CreatePuzzle("p1", memories, "m1", "text_blanks", Some(1), Some(blanks), _ => 0);
    assert CheckCreate(memories, "m1", "text_blanks") == Ok(TextBlanks);
    var p := created.value;
    var user := new User("dev-user", 999);
    var log := new AttemptLog();
    assert BlankStep(2) == 50;

    var r1 := p.Attempt(Action(Some(0), Some("sky"), None, None), user, log);
    assert r1.Ok? && r1.value.ok && r1.value.delta == 50 && r1.value.progress == 50;
    assert user.tokens == 999 && p.solvedCount == 0;

    var r2 := p.Attempt(Action(Some(1), Some("blue"), None, None), user, log);
    assert r2.Ok? && r2.value.ok && r2.value.delta == 50 && r2.value.progress == 100;
    assert user.tokens == 1005 && p.solvedCount == 1;

    var r3 := p.Attempt(Action(Some(1), Some("blue"), None, None), user, log);
    assert r3.Ok? && !r3.value.ok && r3.value.delta == 0 && r3.value.progress == 100;
    assert user.tokens == 1011 && p.solvedCount == 2 && p.attempts == 3 && |log.records| == 3;

    var r4 := p.Attempt(Action(Some(2), Some("blue"), None, None), user, log);
    assert r4 == Err(InvalidBlankIdx) && p.attempts == 3 && |log.records| == 3;
  }

  /** Difficulty 10 asks for a 12x12 grid and gets the largest, 6x6; a tile
      swapped with itself changes no tile, and the board stays a permutation. */
  method ImageSession()
  {
    var memories := map["m3" := Memory("m3", "dev-user", Image, "https://example.org/b.png")];
    var created := CreatePuzzle("p3", memories, "m3", "image_scramble", Some(10), None, i => i * 7);
    assert CheckCreate(memories, "m3", "image_scramble") == Ok(ImageScramble);
    var p := created.value;
    assert GridSize(10) == 6;
    assert p.board.n == 6 && p.board.tiles.Length == 36;
    var user := new User("dev-user", 999);
    var log := new AttemptLog();
    var before := p.board.tiles[..];
    NoOpSwap(6, before, p.board.imageUrl, p.progress, 5);
    var r := p.Attempt(Action(None, None, Some(5), Some(5)), user, log);
    assert r.Ok? && p.board.tiles[..] == before && p.attempts == 1;
    var bad := p.Attempt(Action(None, None, Some(5), Some(36)), user, log);
    assert bad == Err(InvalidIndices) && p.attempts == 1 && |log.records| == 1;
  }

  /** An image memory cannot back a text-blanks puzzle. */
  method MismatchedCreation()
  {
    var memories := map["m2" := Memory("m2", "dev-user", Image, "https://example.org/a.png")];
    var created := CreatePuzzle("p2", memories, "m2", "text_blanks", None, None, _ => 0);
    assert created == Err(TextBlanksNeedsText);
  }
}
