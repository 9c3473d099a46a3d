/**
 The backtracking word search of `find`, modelled as pure functions over an
 explicit, immutable path, with soundness and completeness against a
 declarative notion of a valid path.

 The source keeps the path in one mutable list that recursive calls share.
 On a failed branch it rebinds its local name to a fresh empty list
 (boggle.py:167) instead of removing the tile it appended, so in later
 branches the tiles chosen by enclosing calls are no longer excluded. This
 module follows the documented intent instead: no tile is used twice
 (boggle.py:5-7) and a tile on the path is never considered again
 (boggle.py:155-157), so every branch recurses on `path + [tile]`. The
 source as written is modelled in module `AsWritten`.
 */
module Search {
  import opened Grid

  /** `p` traces `word` on the board: one on-board tile per letter, holding
      that letter, no tile twice, each step to an orthogonal neighbour. */
  predicate ValidPath(board: Board, word: string, p: seq<Pos>)
    requires IsGrid(board)
  {
    && |p| == |word|
    && (forall i :: 0 <= i < |p| ==> InBounds(p[i]) && Cell(board, p[i]) == [word[i]])
    && (forall i, j :: 0 <= i < j < |p| ==> p[i] != p[j])
    && (forall i :: 0 <= i < |p| - 1 ==> Adjacent(p[i], p[i + 1]))
  }

  /** `p` completes a search state: it is a valid path for the rest of the
      word, starts at one of the candidate tiles and avoids the tiles
      already on the path. */
  ghost predicate Continues(board: Board, word: string, avail: seq<Pos>, path: seq<Pos>, p: seq<Pos>)
    requires IsGrid(board)
  {
    && ValidPath(board, word, p)
    && |p| >= 1
    && p[0] in avail
    && (forall i :: 0 <= i < |p| ==> p[i] !in path)
  }

  predicate AllInBounds(tiles: seq<Pos>) {
    forall t :: t in tiles ==> InBounds(t)
  }

  /** The candidate tiles that are not on the path, in order. */
  function FreeTiles(avail: seq<Pos>, path: seq<Pos>): (fs: seq<Pos>)
    ensures forall t :: t in fs <==> t in avail && t !in path
  {
    if avail == [] then []
    else (if avail[0] !in path then [avail[0]] else []) + FreeTiles(avail[1..], path)
  }

  /** `run_base_case`: the letters of the free candidate tiles include the
      (one-letter) word. */
  function RunBaseCase(board: Board, word: string, avail: seq<Pos>, path: seq<Pos>): (found: bool)
    requires IsGrid(board) && AllInBounds(avail)
    ensures found <==> exists t :: t in avail && t !in path && Cell(board, t) == word
  {
    var free := FreeTiles(avail, path);
    var letters := seq(|free|, k requires 0 <= k < |free| => Cell(board, free[k]));
    assert forall t :: t in free ==> Cell(board, t) in letters by {
      forall t | t in free ensures Cell(board, t) in letters {
        var k :| 0 <= k < |free| && free[k] == t;
        assert letters[k] == Cell(board, t);
      }
    }
    word in letters
  }

  /** The candidate tiles holding `letter` and not on the path, in the
      order of `avail` (the `origin_tile` list of `find`). */
  function Origins(board: Board, letter: char, avail: seq<Pos>, path: seq<Pos>): (os: seq<Pos>)
    requires IsGrid(board) && AllInBounds(avail)
    ensures forall t :: t in os <==> t in avail && t !in path && Cell(board, t) == [letter]
    ensures |os| <= |avail|
  {
    if avail == [] then []
    else
      var t := avail[0];
      (if t !in path && Cell(board, t) == [letter] then [t] else [])
      + Origins(board, letter, avail[1..], path)
  }

  /** `find`. An empty candidate list starts a fresh search from every
      tile with an empty path, as `reset_board` does for the first call. */
  function Find(board: Board, word: string, avail: seq<Pos>, path: seq<Pos>): bool
    requires IsGrid(board) && |word| >= 1 && AllInBounds(avail)
    decreases |word|, 1
  {
    var (current, tiles) := if avail == [] then ResetBoard() else (path, avail);
    if |word| == 1 then RunBaseCase(board, word, tiles, current)
    else TryOrigins(board, word, Origins(board, word[0], tiles, current), current)
  }

  /** The loop over `origin_tile`: extend the path by the tile, move to its
      neighbours, search the rest of the word, and stop at the first
      success. */
  function TryOrigins(board: Board, word: string, os: seq<Pos>, path: seq<Pos>): bool
    requires IsGrid(board) && |word| >= 2 && AllInBounds(os)
    decreases |word|, 0, |os|
  {
    if os == [] then false
    else
      Find(board, word[1..], Neighbors(os[0]), path + [os[0]])
      || TryOrigins(board, word, os[1..], path)
  }

  /** `find(board, word)`: the word can be traced on the board. */
  function FindWord(board: Board, word: string): (found: bool)
    requires IsGrid(board) && |word| >= 1
    ensures found <==> exists p :: ValidPath(board, word, p)
  {
    FindWordCorrect(board, word);
    Find(board, word, [], [])
  }

  /** A valid path for the word after its first letter, preceded by a
      neighbouring tile that holds the first letter and is not on it, is a
      valid path for the whole word. */
  lemma Prepend(board: Board, word: string, o: Pos, q: seq<Pos>)
    requires IsGrid(board) && |word| >= 2
    requires ValidPath(board, word[1..], q)
    requires InBounds(o) && Cell(board, o) == [word[0]]
    requires Adjacent(o, q[0]) && o !in q
    ensures ValidPath(board, word, [o] + q)
  {
    var p := [o] + q;
    forall i | 0 < i < |p| ensures p[i] == q[i - 1] && [word[i]] == [word[1..][i - 1]] {
    }
  }

  /** Dropping the first tile of a valid path leaves a valid path for the
      rest of the word, starting next to the dropped tile. */
  lemma Behead(board: Board, word: string, p: seq<Pos>)
    requires IsGrid(board) && |word| >= 2
    requires ValidPath(board, word, p)
    ensures ValidPath(board, word[1..], p[1..])
    ensures Adjacent(p[0], p[1]) && p[0] !in p[1..]
  {
    var q := p[1..];
    forall i | 0 <= i < |q| ensures q[i] == p[i + 1] && word[1..][i] == word[i + 1] {
    }
    assert p[0] !in q by {
      forall i | 0 <= i < |q| ensures q[i] != p[0] {
        assert q[i] == p[i + 1];
      }
    }
  }

  /** Soundness: when `find` succeeds from a non-empty candidate list, some
      valid path for the word starts at a candidate and avoids the path. */
  lemma {:induction false} FindSound(board: Board, word: string, avail: seq<Pos>, path: seq<Pos>)
    requires IsGrid(board) && |word| >= 1 && AllInBounds(avail) && avail != []
    requires Find(board, word, avail, path)
    ensures exists p :: Continues(board, word, avail, path, p)
    decreases |word|, 1
  {
    if |word| == 1 {
      var t :| t in avail && t !in path && Cell(board, t) == word;
      assert word == [word[0]];
      assert Continues(board, word, avail, path, [t]);
    } else {
      var os := Origins(board, word[0], avail, path);
      TryOriginsSound(board, word, os, path);
      var p :| Continues(board, word, os, path, p);
      assert Continues(board, word, avail, path, p);
    }
  }

  lemma {:induction false} TryOriginsSound(board: Board, word: string, os: seq<Pos>, path: seq<Pos>)
    requires IsGrid(board) && |word| >= 2 && AllInBounds(os)
    requires forall t :: t in os ==> t !in path && Cell(board, t) == [word[0]]
    requires TryOrigins(board, word, os, path)
    ensures exists p :: Continues(board, word, os, path, p)
    decreases |word|, 0, |os|
  {
    var o := os[0];
    if Find(board, word[1..], Neighbors(o), path + [o]) {
      FindSound(board, word[1..], Neighbors(o), path + [o]);
      var q :| Continues(board, word[1..], Neighbors(o), path + [o], q);
      assert o !in q by {
        forall i | 0 <= i < |q| ensures q[i] != o {
          assert q[i] !in path + [o];
        }
      }
      Prepend(board, word, o, q);
      var p := [o] + q;
      forall i | 0 <= i < |p| ensures p[i] !in path {
        if i > 0 {
          assert p[i] == q[i - 1];
          assert q[i - 1] !in path + [o];
        }
      }
      assert Continues(board, word, os, path, p);
    } else {
      TryOriginsSound(board, word, os[1..], path);
      var p :| Continues(board, word, os[1..], path, p);
      assert Continues(board, word, os, path, p);
    }
  }

  /** Completeness: every valid path that starts at a candidate and avoids
      the path makes `find` succeed; backtracking never gives up early. */
  lemma {:induction false} FindComplete(board: Board, word: string, avail: seq<Pos>, path: seq<Pos>, p: seq<Pos>)
    requires IsGrid(board) && |word| >= 1 && AllInBounds(avail) && avail != []
    requires Continues(board, word, avail, path, p)
    ensures Find(board, word, avail, path)
    decreases |word|, 1
  {
    if |word| == 1 {
      assert Cell(board, p[0]) == word;
    } else {
      var os := Origins(board, word[0], avail, path);
      assert p[0] in os;
      TryOriginsComplete(board, word, os, path, p);
    }
  }

  lemma {:induction false} TryOriginsComplete(board: Board, word: string, os: seq<Pos>, path: seq<Pos>, p: seq<Pos>)
    requires IsGrid(board) && |word| >= 2 && AllInBounds(os)
    requires Continues(board, word, os, path, p)
    ensures TryOrigins(board, word, os, path)
    decreases |word|, 0, |os|
  {
    var o := os[0];
    if p[0] == o {
      Behead(board, word, p);
      var q := p[1..];
      forall i | 0 <= i < |q| ensures q[i] !in path + [o] {
        assert q[i] == p[i + 1];
      }
      assert Continues(board, word[1..], Neighbors(o), path + [o], q);
      FindComplete(board, word[1..], Neighbors(o), path + [o], q);
    } else {
      assert Continues(board, word, os[1..], path, p);
      TryOriginsComplete(board, word, os[1..], path, p);
    }
  }

  /** From the top-level call, `find` succeeds exactly when the word can be
      traced somewhere on the board. */
  lemma FindWordCorrect(board: Board, word: string)
    requires IsGrid(board) && |word| >= 1
    ensures Find(board, word, [], []) <==> exists p :: ValidPath(board, word, p)
  {
    var (_, all) := ResetBoard();
    assert Find(board, word, [], []) == Find(board, word, all, []);
    if Find(board, word, all, []) {
      FindSound(board, word, all, []);
    }
    forall p | ValidPath(board, word, p) ensures Find(board, word, all, []) {
      assert Continues(board, word, all, [], p);
      FindComplete(board, word, all, [], p);
    }
  }

  /** A one-letter word is found exactly when some tile holds that letter. */
  lemma FindSingleLetter(board: Board, c: char)
    requires IsGrid(board)
    ensures FindWord(board, [c]) <==> exists t :: InBounds(t) && Cell(board, t) == [c]
  {
    var (_, all) := ResetBoard();
    assert FindWord(board, [c]) == RunBaseCase(board, [c], all, []);
  }
}
