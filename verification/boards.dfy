/** Board generation and the board facts the attempt resolver relies on: the
    image grid size, the Fisher-Yates shuffle of the tiles, and the count of
    tiles sitting at their home position. */
module Boards {
  import opened Rounding

  /** One fill-in slot of a text-blanks board. `locked` latches once solved. */
  datatype Blank = Blank(answer: string, choices: seq<string>, locked: bool)

  /** The value of a board: blanks for text mode, an n-by-n grid for image mode. */
  datatype BoardView =
    | Blanks(blanks: seq<Blank>)
    | Tiles(n: int, tiles: seq<int>, imageUrl: string)

  /** `Math.max(2, Math.min(6, difficulty + 2))`. */
  function GridSize(difficulty: int): (n: int)
    ensures 2 <= n <= 6
    ensures 0 <= difficulty <= 4 ==> n == difficulty + 2
    ensures difficulty >= 4 ==> n == 6
    ensures difficulty <= 0 ==> n == 2
  {
    Max(2, Min(6, difficulty + 2))
  }

  /** The solved arrangement `[0, 1, ..., k-1]`. */
  function Iota(k: nat): (s: seq<int>)
    ensures |s| == k && forall i :: 0 <= i < k ==> s[i] == i
  {
    seq(k, i => i)
  }

  /** `s` holds each of `0 .. |s|-1` exactly once. */
  ghost predicate IsPermutation(s: seq<int>) {
    multiset(s) == multiset(Iota(|s|))
  }

  /** `[s[i], s[j]] = [s[j], s[i]]`. */
  function Swap(s: seq<int>, i: int, j: int): (r: seq<int>)
    requires 0 <= i < |s| && 0 <= j < |s|
    ensures |r| == |s|
  {
    s[i := s[j]][j := s[i]]
  }

  /** A swap exchanges the two entries, leaves every other position alone and
      so keeps the same multiset of values. */
  lemma SwapExchanges(s: seq<int>, i: int, j: int)
    requires 0 <= i < |s| && 0 <= j < |s|
    ensures Swap(s, i, j)[i] == s[j] && Swap(s, i, j)[j] == s[i]
    ensures forall k :: 0 <= k < |s| && k != i && k != j ==> Swap(s, i, j)[k] == s[k]
    ensures multiset(Swap(s, i, j)) == multiset(s)
  {
  }

  /** The shuffle loop `for (i = len-1; i > 0; i--) swap(i, j)` from position `i`
      down, where the random pick for position i is `draw(i) % (i + 1)`, any
      index in `[0, i]`. */
  function FisherYates(s: seq<int>, i: nat, draw: nat -> nat): (r: seq<int>)
    requires i < |s|
    ensures |r| == |s|
    decreases i
  {
    if i == 0 then s else FisherYates(Swap(s, i, Pick(draw, i)), i - 1, draw)
  }

  /** The random index chosen for position `i`: `Math.floor(Math.random() * (i + 1))`
      stands for any index in `[0, i]`, and `draw(i) % (i + 1)` can be each of them. */
  function Pick(draw: nat -> nat, i: nat): (j: nat)
    ensures j <= i
  {
    draw(i) % (i + 1)
  }

  /** Each step of the shuffle only swaps two positions, so the values are kept. */
  lemma {:induction false} FisherYatesPermutes(s: seq<int>, i: nat, draw: nat -> nat)
    requires i < |s|
    ensures multiset(FisherYates(s, i, draw)) == multiset(s)
    decreases i
  {
    if i > 0 {
      SwapExchanges(s, i, Pick(draw, i));
      FisherYatesPermutes(Swap(s, i, Pick(draw, i)), i - 1, draw);
    }
  }

  /** The tiles of a fresh image board of `len` cells: `[0 .. len-1]` shuffled. */
  function InitialTiles(len: nat, draw: nat -> nat): (s: seq<int>)
    requires len >= 1
    ensures |s| == len
  {
    FisherYates(Iota(len), len - 1, draw)
  }

  /** Whatever the random picks, the shuffled tiles are a permutation of
      `0 .. len-1`, so each tile appears exactly once. */
  lemma ShuffleIsPermutation(len: nat, draw: nat -> nat)
    requires len >= 1
    ensures IsPermutation(InitialTiles(len, draw))
  {
    FisherYatesPermutes(Iota(len), len - 1, draw);
  }

  /** The shuffle may leave tiles at home: on a 2x2 grid, picking 2 for position 3
      and keeping positions 2 and 1 in place gives `[0, 1, 3, 2]`, half solved. */
  lemma ShuffleCanLeaveTilesHome()
    ensures InitialTiles(4, i => if i == 3 then 2 else i) == [0, 1, 3, 2]
  {
    var draw: nat -> nat := i => if i == 3 then 2 else i;
    assert Pick(draw, 3) == 2 && Pick(draw, 2) == 2 && Pick(draw, 1) == 1;
    var s3 := Swap([0, 1, 2, 3], 3, 2);
    assert s3 == [0, 1, 3, 2];
    assert Swap(s3, 2, 2) == s3;
    assert Swap(s3, 1, 1) == s3;
  }

  /** The in-place shuffle loop over a non-empty tile array. */
  method ShuffleInPlace(tiles: array<int>, draw: nat -> nat)
    requires tiles.Length >= 1
    modifies tiles
    ensures tiles[..] == FisherYates(old(tiles[..]), tiles.Length - 1, draw)
  {
    ghost var shuffled := FisherYates(tiles[..], tiles.Length - 1, draw);
    var i := tiles.Length - 1;
    while i > 0
      invariant 0 <= i < tiles.Length
      invariant FisherYates(tiles[..], i, draw) == shuffled
    {
      var j := Pick(draw, i);
      ghost var before := tiles[..];
      tiles[i], tiles[j] := tiles[j], tiles[i];
      assert tiles[..] == Swap(before, i, j);
      i := i - 1;
    }
  }

  /** `NewTiles` needs a non-empty grid to start the loop at `n * n - 1`. */
  lemma AreaPositive(n: int)
    requires n >= 1
    ensures n * n >= 1
  {
    assert n * n == n + n * (n - 1);
  }

  /** Builds the image board's tiles: `Array.from({length: n*n}, (_, i) => i)`
      then the in-place shuffle. */
  method NewTiles(n: nat, draw: nat -> nat) returns (tiles: array<int>)
    requires n >= 1
    ensures fresh(tiles)
    ensures tiles.Length == n * n && tiles.Length >= 1
    ensures tiles[..] == InitialTiles(tiles.Length, draw)
  {
    var len := n * n;
    AreaPositive(n);
    tiles := new int[len](k => k);
    assert tiles[..] == Iota(len);
    ShuffleInPlace(tiles, draw);
  }

  /** The running total of `tiles.reduce((acc, v, idx) => acc + (v === idx ? 1 : 0), 0)`
      after the first `k` positions. */
  function HomesBelow(s: seq<int>, k: nat): (c: nat)
    requires k <= |s|
    ensures c <= k
  {
    if k == 0 then 0 else HomesBelow(s, k - 1) + (if s[k - 1] == k - 1 then 1 else 0)
  }

  function HomeCount(s: seq<int>): (c: nat)
    ensures c <= |s|
  {
    HomesBelow(s, |s|)
  }

  /** Every one of the first `k` positions counts exactly when each holds its own index. */
  lemma {:induction false} HomesBelowAll(s: seq<int>, k: nat)
    requires k <= |s|
    ensures HomesBelow(s, k) == k <==> forall i :: 0 <= i < k ==> s[i] == i
  {
    if k > 0 {
      HomesBelowAll(s, k - 1);
    }
  }

  /** The count is full exactly when the tiles are in the solved arrangement. */
  lemma AllHomeIffSolved(s: seq<int>)
    ensures HomeCount(s) == |s| <==> s == Iota(|s|)
  {
    HomesBelowAll(s, |s|);
  }
}
