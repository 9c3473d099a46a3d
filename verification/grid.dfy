/**
 The 5x5 letter grid: building it from text (`make_board`), coordinates,
 orthogonal neighbours (`find_neighbors`) and the initial search state
 (`reset_board`).
 */
module Grid {
  import opened Tokens

  /** Side of the square board; the source writes the literal 5 throughout. */
  const N := 5

  /** A (row, column) coordinate. Unbounded on purpose: the neighbour
      computation produces off-board candidates before filtering them. */
  type Pos = (int, int)

  /** Rows of tokens. `make_board` keeps whole whitespace-separated tokens,
      so a cell is a string, normally of one letter. */
  type Board = seq<seq<string>>

  predicate IsGrid(b: Board) {
    |b| == N && forall i :: 0 <= i < N ==> |b[i]| == N
  }

  predicate InBounds(p: Pos) {
    0 <= p.0 < N && 0 <= p.1 < N
  }

  function Cell(b: Board, p: Pos): string
    requires IsGrid(b) && InBounds(p)
  {
    b[p.0][p.1]
  }

  function Abs(x: int): nat {
    if x < 0 then -x else x
  }

  /** Two tiles are adjacent when they are one step apart in exactly one
      coordinate: Manhattan distance 1, so no diagonal and no tile is its
      own neighbour. */
  predicate Adjacent(p: Pos, q: Pos) {
    Abs(p.0 - q.0) + Abs(p.1 - q.1) == 1
  }

  function Min(a: int, b: int): int {
    if a <= b then a else b
  }

  /** Python's `xs[lo:hi]` for 0 <= lo <= hi: bounds past the end are
      clamped, so a slice of a short list is short or empty. */
  function Slice<T>(xs: seq<T>, lo: nat, hi: nat): (r: seq<T>)
    requires lo <= hi
    ensures |r| == Min(hi, |xs|) - Min(lo, |xs|)
    ensures forall k :: 0 <= k < |r| ==> r[k] == xs[lo + k]
  {
    xs[Min(lo, |xs|)..Min(hi, |xs|)]
  }

  /** `make_board`: split the text on whitespace and deal the tokens into
      five rows of five, row by row. Short input gives short rows, as
      Python's slicing does; tokens after the 25th are dropped. */
  function MakeBoard(text: string): (b: Board)
    ensures |b| == N
    ensures Concat(b) == Split(text)[..Min(|Split(text)|, N * N)]
    ensures forall i :: 0 <= i < N ==> |b[i]| == Min(N, |Split(text)| - Min(N * i, |Split(text)|))
    ensures N * N <= |Split(text)| ==>
              && IsGrid(b)
              && (forall i :: 0 <= i < N ==> b[i] == Split(text)[N * i..N * i + N])
              && (forall i, j :: 0 <= i < N && 0 <= j < N ==> b[i][j] == Split(text)[N * i + j])
  {
    var letters := Split(text);
    var b := [Slice(letters, 0, 5), Slice(letters, 5, 10), Slice(letters, 10, 15),
              Slice(letters, 15, 20), Slice(letters, 20, 25)];
    DealtRows(letters, b);
    b
  }

  /** The five slices of `make_board` put back together give the first 25
      tokens (or all of them, when there are fewer). */
  lemma DealtRows(letters: seq<string>, b: Board)
    requires b == [Slice(letters, 0, 5), Slice(letters, 5, 10), Slice(letters, 10, 15),
                   Slice(letters, 15, 20), Slice(letters, 20, 25)]
    ensures Concat(b) == letters[..Min(|letters|, 25)]
  {
    var m := Min(|letters|, 25);
    assert Concat(b[4..]) == letters[Min(20, m)..m] by {
      assert Concat(b[5..]) == [];
    }
    assert Concat(b[3..]) == letters[Min(15, m)..m] by {
      assert letters[Min(15, m)..m] == letters[Min(15, m)..Min(20, m)] + letters[Min(20, m)..m];
    }
    assert Concat(b[2..]) == letters[Min(10, m)..m] by {
      assert letters[Min(10, m)..m] == letters[Min(10, m)..Min(15, m)] + letters[Min(15, m)..m];
    }
    assert Concat(b[1..]) == letters[Min(5, m)..m] by {
      assert letters[Min(5, m)..m] == letters[Min(5, m)..Min(10, m)] + letters[Min(10, m)..m];
    }
    assert letters[..m] == letters[..Min(5, m)] + letters[Min(5, m)..m];
  }

  /** Which of the four candidate offsets `q` is relative to `p`, in the
      order `find_neighbors` lists them: column + 1, column - 1, row - 1,
      row + 1. */
  function Heading(p: Pos, q: Pos): nat {
    if q == (p.0, p.1 + 1) then 0
    else if q == (p.0, p.1 - 1) then 1
    else if q == (p.0 - 1, p.1) then 2
    else 3
  }

  /** `find_neighbors`: the on-board orthogonal neighbours of `pos`. */
  function Neighbors(pos: Pos): (r: seq<Pos>)
    ensures forall q :: q in r <==> InBounds(q) && Adjacent(pos, q)
    ensures InBounds(pos) ==> |r| >= 2
  {
    var east := (pos.0, pos.1 + 1);
    var west := (pos.0, pos.1 - 1);
    var north := (pos.0 - 1, pos.1);
    var south := (pos.0 + 1, pos.1);
    var r := (if InBounds(east) then [east] else [])
      + (if InBounds(west) then [west] else [])
      + (if InBounds(north) then [north] else [])
      + (if InBounds(south) then [south] else []);
    assert forall q :: q in r <==> InBounds(q) && Adjacent(pos, q) by {
      forall q ensures q in r <==> InBounds(q) && Adjacent(pos, q) {
        AdjacentIsStep(pos, q);
      }
    }
    r
  }

  /** The neighbours come in the fixed order column + 1, column - 1,
      row - 1, row + 1, each at most once. */
  lemma NeighborsInOrder(pos: Pos)
    ensures forall i, j :: 0 <= i < j < |Neighbors(pos)| ==> Heading(pos, Neighbors(pos)[i]) < Heading(pos, Neighbors(pos)[j])
  {
  }

  /** The four tiles adjacent to `p` are one step east, west, north or
      south of it. */
  lemma AdjacentIsStep(p: Pos, q: Pos)
    ensures Adjacent(p, q) <==> q in [(p.0, p.1 + 1), (p.0, p.1 - 1), (p.0 - 1, p.1), (p.0 + 1, p.1)]
  {
  }

  /** Adjacency on the board is symmetric. */
  lemma NeighborsSymmetric(p: Pos, q: Pos)
    requires InBounds(p) && InBounds(q)
    ensures q in Neighbors(p) <==> p in Neighbors(q)
  {
    assert Adjacent(p, q) == Adjacent(q, p);
  }

  /** `reset_board`: an empty path and every tile of the board, row by row. */
  function ResetBoard(): (r: (seq<Pos>, seq<Pos>))
    ensures r.0 == []
    ensures forall q :: q in r.1 <==> InBounds(q)
  {
    var all := seq(N * N, k requires 0 <= k < N * N => (k / N, k % N));
    assert forall q :: InBounds(q) ==> q in all by {
      forall q | InBounds(q) ensures q in all {
        assert all[N * q.0 + q.1] == q;
      }
    }
    ([], all)
  }

  /** The tiles of `reset_board` come row by row, each row left to right,
      so every tile appears exactly once. */
  lemma ResetBoardOrder()
    ensures |ResetBoard().1| == N * N
    ensures forall i, j :: 0 <= i < N && 0 <= j < N ==> ResetBoard().1[N * i + j] == (i, j)
    ensures forall a, b :: 0 <= a < b < N * N ==> ResetBoard().1[a] != ResetBoard().1[b]
  {
  }
}
