/** The attempt resolver as pure functions over board values: the text-blanks
    latch and the image-scramble swap, each with the progress arithmetic of the
    `/puzzles/:id/attempt` handler. The Puzzle class applies these in place. */
module Resolver {
  import opened Errors
  import opened Rounding
  import opened Boards

  /** The fields of an attempt body the handler reads; a field absent from the
      body is None. Text mode reads blankIdx and choice, image mode from and to. */
  datatype Action = Action(blankIdx: Option<int>, choice: Option<string>, from: Option<int>, to: Option<int>)

  /** What an attempt that passed its index checks produces: the new board, the
      new progress, and the `ok` and `delta` fields of the response. */
  datatype Resolution = Resolution(board: BoardView, progress: int, ok: bool, delta: int)

  /** An index that is present and addresses an element of a sequence of length `len`. */
  predicate ValidIndex(i: Option<int>, len: nat) {
    i.Some? && 0 <= i.value < len
  }

  /** `Math.round(100 / total)`: the progress one solved blank is worth. It is
      zero once there are more than 200 blanks. */
  function BlankStep(total: nat): (d: nat)
    requires total > 0
    ensures d <= 100
    ensures d == 0 <==> total > 200
    ensures total == 1 ==> d == 100
  {
    RoundDiv(100, total)
  }

  // ---------------------------------------------------------------- text blanks

  /** The text-blanks resolver: reject a missing or out-of-range index; credit a
      correct choice on an unlocked blank once, latching it; anything else is a
      miss that changes nothing. */
  function TextResolve(blanks: seq<Blank>, progress: int, blankIdx: Option<int>, choice: Option<string>): (r: Result<Resolution>)
    ensures r.Err? <==> !ValidIndex(blankIdx, |blanks|)
    ensures r.Err? ==> r.error == InvalidBlankIdx
    ensures r.Ok? ==> r.value.board.Blanks? && |r.value.board.blanks| == |blanks|
    ensures r.Ok? ==> r.value.delta == (if r.value.ok then BlankStep(|blanks|) else 0)
  {
    if !ValidIndex(blankIdx, |blanks|) then Err(InvalidBlankIdx)
    else
      var k := blankIdx.value;
      var blank := blanks[k];
      if choice == Some(blank.answer) && !blank.locked then
        var delta := BlankStep(|blanks|);
        Ok(Resolution(Blanks(blanks[k := blank.(locked := true)]), Min(100, progress + delta), true, delta))
      else
        Ok(Resolution(Blanks(blanks), progress, false, 0))
  }

  /** A hit is exactly a matching choice on an unlocked blank; it latches that
      blank and nothing else, and adds its step to progress, capped at 100. */
  lemma TextHit(blanks: seq<Blank>, progress: int, k: int, choice: Option<string>)
    requires 0 <= k < |blanks|
    ensures var r := TextResolve(blanks, progress, Some(k), choice).value;
      (r.ok <==> !blanks[k].locked && choice == Some(blanks[k].answer)) &&
      (r.ok ==> r.board.blanks == blanks[k := Blank(blanks[k].answer, blanks[k].choices, true)] &&
                r.progress == Min(100, progress + BlankStep(|blanks|)))
  {
  }

  /** A wrong choice, or any choice on a blank that is already locked, is a miss:
      ok is false, delta is 0, and board and progress are as they were. */
  lemma TextMiss(blanks: seq<Blank>, progress: int, k: int, choice: Option<string>)
    requires 0 <= k < |blanks|
    requires blanks[k].locked || choice != Some(blanks[k].answer)
    ensures TextResolve(blanks, progress, Some(k), choice) == Ok(Resolution(Blanks(blanks), progress, false, 0))
  {
  }

  /** The latch: a locked blank stays locked, and no blank's answer or choices change. */
  lemma TextLatch(blanks: seq<Blank>, progress: int, blankIdx: Option<int>, choice: Option<string>, i: int)
    requires TextResolve(blanks, progress, blankIdx, choice).Ok?
    requires 0 <= i < |blanks|
    ensures var b := TextResolve(blanks, progress, blankIdx, choice).value.board.blanks[i];
      (blanks[i].locked ==> b.locked) && b.answer == blanks[i].answer && b.choices == blanks[i].choices
  {
  }

  /** Text progress never decreases and never leaves `0..100`. */
  lemma TextProgressMonotone(blanks: seq<Blank>, progress: int, blankIdx: Option<int>, choice: Option<string>)
    requires 0 <= progress <= 100
    requires TextResolve(blanks, progress, blankIdx, choice).Ok?
    ensures progress <= TextResolve(blanks, progress, blankIdx, choice).value.progress <= 100
  {
  }

  /** The number of locked blanks. */
  function LockedCount(blanks: seq<Blank>): (c: nat)
    ensures c <= |blanks|
  {
    if blanks == [] then 0 else (if blanks[0].locked then 1 else 0) + LockedCount(blanks[1..])
  }

  /** Latching one unlocked blank adds one to the locked count. */
  lemma {:induction false} LockOne(blanks: seq<Blank>, k: int)
    requires 0 <= k < |blanks| && !blanks[k].locked
    ensures LockedCount(blanks[k := blanks[k].(locked := true)]) == LockedCount(blanks) + 1
  {
    var after := blanks[k := blanks[k].(locked := true)];
    if k > 0 {
      assert after[1..] == blanks[1..][k - 1 := blanks[k].(locked := true)];
      LockOne(blanks[1..], k - 1);
    } else {
      assert after[1..] == blanks[1..];
    }
  }

  /** The locked count is full exactly when every blank is locked. */
  lemma {:induction false} AllLocked(blanks: seq<Blank>)
    ensures LockedCount(blanks) == |blanks| <==> forall i :: 0 <= i < |blanks| ==> blanks[i].locked
  {
    if blanks != [] {
      AllLocked(blanks[1..]);
      if LockedCount(blanks) == |blanks| {
        forall i | 0 <= i < |blanks| ensures blanks[i].locked {
          if i > 0 { assert blanks[i] == blanks[1..][i - 1]; }
        }
      }
      if forall i :: 0 <= i < |blanks| ==> blanks[i].locked {
        assert forall i :: 0 <= i < |blanks[1..]| ==> blanks[1..][i].locked;
      }
    }
  }

  /** The text progress a puzzle should show: one step per locked blank, capped at 100. */
  ghost predicate Accounted(blanks: seq<Blank>, progress: int) {
    |blanks| > 0 && progress == Min(100, LockedCount(blanks) * BlankStep(|blanks|))
  }

  /** A fresh text puzzle (no blank locked, progress 0) is accounted for. */
  lemma FreshAccounted(blanks: seq<Blank>)
    requires |blanks| > 0
    requires forall i :: 0 <= i < |blanks| ==> !blanks[i].locked
    ensures Accounted(blanks, 0)
  {
    AllLocked(blanks);
    NoneLocked(blanks);
  }

  lemma {:induction false} NoneLocked(blanks: seq<Blank>)
    requires forall i :: 0 <= i < |blanks| ==> !blanks[i].locked
    ensures LockedCount(blanks) == 0
  {
    if blanks != [] {
      assert forall i :: 0 <= i < |blanks[1..]| ==> !blanks[1..][i].locked;
      NoneLocked(blanks[1..]);
    }
  }

  /** Every text attempt keeps progress equal to one step per locked blank, capped at 100. */
  lemma TextKeepsAccount(blanks: seq<Blank>, progress: int, blankIdx: Option<int>, choice: Option<string>)
    requires Accounted(blanks, progress)
    requires TextResolve(blanks, progress, blankIdx, choice).Ok?
    ensures var r := TextResolve(blanks, progress, blankIdx, choice).value;
      Accounted(r.board.blanks, r.progress)
  {
    var r := TextResolve(blanks, progress, blankIdx, choice).value;
    var k := blankIdx.value;
    if r.ok {
      var d, l := BlankStep(|blanks|), LockedCount(blanks);
      TextHit(blanks, progress, k, choice);
      LockOne(blanks, k);
      assert LockedCount(r.board.blanks) == l + 1;
      var x := l * d;
      OneMoreStep(l, d);
      assert progress == Min(100, x);
      assert r.progress == Min(100, progress + d);
    } else {
      TextMiss(blanks, progress, k, choice);
    }
  }

  /** Distributivity for `TextKeepsAccount`: one more locked blank adds one step. */
  lemma OneMoreStep(l: int, d: int)
    ensures (l + 1) * d == l * d + d
  {
  }

  /** Once every blank is locked, progress is `min(100, k * round(100 / k))` for
      k blanks: that is 100 only when the rounded steps add up to 100 or more. */
  lemma AllSolvedProgress(blanks: seq<Blank>, progress: int)
    requires Accounted(blanks, progress)
    requires forall i :: 0 <= i < |blanks| ==> blanks[i].locked
    ensures progress == Min(100, |blanks| * BlankStep(|blanks|))
  {
    AllLocked(blanks);
  }

  /** With three blanks each hit is worth 33, so progress stops at 99: a three-blank
      puzzle never reaches 100 and never pays a reward. */
  lemma ThreeBlanksStopAt99(blanks: seq<Blank>, progress: int)
    requires |blanks| == 3
    requires Accounted(blanks, progress)
    ensures progress <= 99
    ensures (forall i :: 0 <= i < 3 ==> blanks[i].locked) ==> progress == 99
  {
    assert BlankStep(3) == 33;
    AllLocked(blanks);
  }

  /** Two blanks: each hit is worth 50 and the second one completes the puzzle. */
  lemma TwoBlanksExample(a: string, b: string)
    ensures var blanks := [Blank(a, [a], false), Blank(b, [b], false)];
      var r1 := TextResolve(blanks, 0, Some(0), Some(a)).value;
      var r2 := TextResolve(r1.board.blanks, r1.progress, Some(1), Some(b)).value;
      var r3 := TextResolve(r2.board.blanks, r2.progress, Some(1), Some(b)).value;
      r1.ok && r1.delta == 50 && r1.progress == 50 &&
      r2.ok && r2.delta == 50 && r2.progress == 100 &&
      !r3.ok && r3.delta == 0 && r3.progress == 100
  {
    assert BlankStep(2) == 50;
  }

  // ---------------------------------------------------------------- image scramble

  /** The image-scramble resolver: reject a missing or out-of-range index, swap
      the two tiles, and recompute progress from scratch. */
  function ImageResolve(n: int, tiles: seq<int>, imageUrl: string, progress: int, from: Option<int>, to: Option<int>): (r: Result<Resolution>)
    ensures r.Err? <==> !ValidIndex(from, |tiles|) || !ValidIndex(to, |tiles|)
    ensures r.Err? ==> r.error == InvalidIndices
    ensures r.Ok? ==> var t := r.value.board;
      t == Tiles(n, Swap(tiles, from.value, to.value), imageUrl) &&
      r.value.progress == Percent(HomeCount(t.tiles), |tiles|)
    ensures r.Ok? ==> 0 <= r.value.progress <= 100
    ensures r.Ok? ==> r.value.delta == r.value.progress - progress && (r.value.ok <==> r.value.delta > 0)
  {
    if !ValidIndex(from, |tiles|) || !ValidIndex(to, |tiles|) then Err(InvalidIndices)
    else
      var t := Swap(tiles, from.value, to.value);
      var p := Percent(HomeCount(t), |t|);
      Ok(Resolution(Tiles(n, t, imageUrl), p, p > progress, p - progress))
  }

  /** The tiles the swap leaves are still a permutation of `0 .. len-1`. */
  lemma ImageKeepsPermutation(n: int, tiles: seq<int>, imageUrl: string, progress: int, from: Option<int>, to: Option<int>)
    requires IsPermutation(tiles)
    requires ImageResolve(n, tiles, imageUrl, progress, from, to).Ok?
    ensures IsPermutation(ImageResolve(n, tiles, imageUrl, progress, from, to).value.board.tiles)
  {
    SwapExchanges(tiles, from.value, to.value);
  }

  /** Image progress is 100 exactly when the swap leaves every tile at home, for
      any grid of fewer than 200 tiles (the largest grid, 6x6, has 36). */
  lemma ImageSolvedIff(n: int, tiles: seq<int>, imageUrl: string, progress: int, from: Option<int>, to: Option<int>)
    requires |tiles| < 200
    requires ImageResolve(n, tiles, imageUrl, progress, from, to).Ok?
    ensures var r := ImageResolve(n, tiles, imageUrl, progress, from, to).value;
      r.progress == 100 <==> r.board.tiles == Iota(|tiles|)
  {
    var r := ImageResolve(n, tiles, imageUrl, progress, from, to).value;
    PercentFull(HomeCount(r.board.tiles), |tiles|);
    AllHomeIffSolved(r.board.tiles);
  }

  /** Progress matches the tiles when it is the rounded share of tiles at home. */
  ghost predicate InStep(tiles: seq<int>, progress: int) {
    |tiles| > 0 && progress == Percent(HomeCount(tiles), |tiles|)
  }

  /** Swapping a tile with itself leaves the board as it is; when progress already
      matched the tiles, it also reports no change: ok false, delta 0. */
  lemma NoOpSwap(n: int, tiles: seq<int>, imageUrl: string, progress: int, k: int)
    requires 0 <= k < |tiles|
    ensures var r := ImageResolve(n, tiles, imageUrl, progress, Some(k), Some(k)).value;
      r.board.tiles == tiles &&
      (InStep(tiles, progress) ==> !r.ok && r.delta == 0 && r.progress == progress)
  {
    SwapExchanges(tiles, k, k);
    assert Swap(tiles, k, k) == tiles;
  }

  /** Worked example: on a 2x2 grid, `[0, 1, 3, 2]` has two tiles home, so it
      shows 50; swapping the last two solves it. */
  lemma TwoByTwoExample(url: string)
    ensures var r1 := ImageResolve(2, [0, 1, 3, 2], url, 0, Some(0), Some(0)).value;
      var r2 := ImageResolve(2, r1.board.tiles, url, r1.progress, Some(2), Some(3)).value;
      r1.progress == 50 && r1.ok && r1.delta == 50 &&
      r2.board.tiles == [0, 1, 2, 3] && r2.progress == 100 && r2.ok && r2.delta == 50
  {
    var s, t := [0, 1, 3, 2], [0, 1, 2, 3];
    assert Swap(s, 0, 0) == s;
    assert HomesBelow(s, 2) == 2 && HomesBelow(s, 3) == 2 && HomesBelow(s, 4) == 2;
    assert Swap(s, 2, 3) == t;
    assert HomesBelow(t, 2) == 2 && HomesBelow(t, 3) == 3 && HomesBelow(t, 4) == 4;
  }

  /** Image progress is recomputed, so it can fall: breaking a solved 2x2 grid
      drops it from 100 to 50 and reports ok false, delta -50. */
  lemma ImageProgressCanFall(url: string)
    ensures var r := ImageResolve(2, [0, 1, 2, 3], url, 100, Some(0), Some(1)).value;
      r.board.tiles == [1, 0, 2, 3] && r.progress == 50 && !r.ok && r.delta == -50
  {
    var t := [1, 0, 2, 3];
    assert Swap([0, 1, 2, 3], 0, 1) == t;
    assert HomesBelow(t, 2) == 0 && HomesBelow(t, 3) == 1 && HomesBelow(t, 4) == 2;
  }

  // ---------------------------------------------------------------- dispatch

  /** The resolver chosen by the board's mode. */
  function Resolve(board: BoardView, progress: int, action: Action): (r: Result<Resolution>)
    ensures r.Err? ==> r.error == (if board.Blanks? then InvalidBlankIdx else InvalidIndices)
    ensures r.Ok? ==> (r.value.board.Blanks? <==> board.Blanks?)
    ensures r.Ok? && board.Tiles? ==>
      r.value.board.n == board.n && r.value.board.imageUrl == board.imageUrl &&
      |r.value.board.tiles| == |board.tiles|
    ensures r.Ok? && 0 <= progress <= 100 ==> 0 <= r.value.progress <= 100
  {
    match board
    case Blanks(blanks) => TextResolve(blanks, progress, action.blankIdx, action.choice)
    case Tiles(n, tiles, url) => ImageResolve(n, tiles, url, progress, action.from, action.to)
  }
}
