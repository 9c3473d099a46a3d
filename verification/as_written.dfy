/**
 `find` as the source writes it, path aliasing included.

 The path is one list object shared by the recursive calls. A call appends
 the tile it tries to the list it was given and passes that same list down;
 after a failed branch it rebinds its local name to a new empty list
 (boggle.py:167), so its next branch starts from `[tile]` rather than from
 the path it was given. Whatever the inner calls appended to the old list
 is never read again: the caller rebinds too once the call fails, and a
 success returns at once. Only the list the next tile is appended to
 therefore matters, and it is carried as `current`.

 The effect is that branches after the first in a call forget the tiles of
 the enclosing calls, so a word can be "found" by reusing a tile.
 */
module AsWritten {
  import opened Grid
  import opened Search

  function FindAsWritten(board: Board, word: string, avail: seq<Pos>, path: seq<Pos>): bool
    requires IsGrid(board) && |word| >= 1 && AllInBounds(avail)
    decreases |word|, 1
  {
    var (current, tiles) := if avail == [] then ResetBoard() else (path, avail);
    if |word| == 1 then RunBaseCase(board, word, tiles, current)
    else TryOriginsAsWritten(board, word, Origins(board, word[0], tiles, current), current)
  }

  /** The loop over `origin_tile`; `current` is the list `current_path` is
      bound to when the next tile is appended: the caller's path for the
      first tile, a fresh empty list after each failure. */
  function TryOriginsAsWritten(board: Board, word: string, os: seq<Pos>, current: seq<Pos>): bool
    requires IsGrid(board) && |word| >= 2 && AllInBounds(os)
    decreases |word|, 0, |os|
  {
    if os == [] then false
    else
      FindAsWritten(board, word[1..], Neighbors(os[0]), current + [os[0]])
      || TryOriginsAsWritten(board, word, os[1..], [])
  }

  /** The as-written search still finds every word that can be traced: its
      later branches exclude fewer tiles, never more. */
  lemma {:induction false} FindAsWrittenComplete(board: Board, word: string, avail: seq<Pos>, path: seq<Pos>, p: seq<Pos>)
    requires IsGrid(board) && |word| >= 1 && AllInBounds(avail) && avail != []
    requires Continues(board, word, avail, path, p)
    ensures FindAsWritten(board, word, avail, path)
    decreases |word|, 1
  {
    if |word| == 1 {
      assert Cell(board, p[0]) == word;
    } else {
      var os := Origins(board, word[0], avail, path);
      assert p[0] in os;
      TryOriginsAsWrittenComplete(board, word, os, path, p);
    }
  }

  lemma {:induction false} TryOriginsAsWrittenComplete(board: Board, word: string, os: seq<Pos>, current: seq<Pos>, p: seq<Pos>)
    requires IsGrid(board) && |word| >= 2 && AllInBounds(os)
    requires Continues(board, word, os, current, p)
    ensures TryOriginsAsWritten(board, word, os, current)
    decreases |word|, 0, |os|
  {
    var o := os[0];
    if p[0] == o {
      Behead(board, word, p);
      var q := p[1..];
      forall i | 0 <= i < |q| ensures q[i] !in current + [o] {
        assert q[i] == p[i + 1];
      }
      assert Continues(board, word[1..], Neighbors(o), current + [o], q);
      FindAsWrittenComplete(board, word[1..], Neighbors(o), current + [o], q);
    } else {
      assert Continues(board, word, os[1..], [], p);
      TryOriginsAsWrittenComplete(board, word, os[1..], [], p);
    }
  }

  /** Every word the intended search finds, the source finds too. */
  lemma FindWordAsWrittenComplete(board: Board, word: string)
    requires IsGrid(board) && |word| >= 1
    ensures FindWord(board, word) ==> FindAsWritten(board, word, [], [])
  {
    if FindWord(board, word) {
      var p :| ValidPath(board, word, p);
      var (_, all) := ResetBoard();
      assert Continues(board, word, all, [], p);
      FindAsWrittenComplete(board, word, all, [], p);
    }
  }

  /** `p` spells `word` through orthogonally adjacent tiles, possibly using
      a tile more than once: a valid path without the distinctness. */
  predicate Walk(board: Board, word: string, p: seq<Pos>)
    requires IsGrid(board)
  {
    && |p| == |word|
    && (forall i :: 0 <= i < |p| ==> InBounds(p[i]) && Cell(board, p[i]) == [word[i]])
    && (forall i :: 0 <= i < |p| - 1 ==> Adjacent(p[i], p[i + 1]))
  }

  /** What the aliasing loses is only the "no tile twice" rule: when the
      source reports a word found, the word can still be spelled by a walk
      starting at a candidate tile. */
  lemma {:induction false} FindAsWrittenWalk(board: Board, word: string, avail: seq<Pos>, path: seq<Pos>)
    requires IsGrid(board) && |word| >= 1 && AllInBounds(avail) && avail != []
    requires FindAsWritten(board, word, avail, path)
    ensures exists p :: Walk(board, word, p) && p[0] in avail
    decreases |word|, 1
  {
    if |word| == 1 {
      var t :| t in avail && t !in path && Cell(board, t) == word;
      assert word == [word[0]];
      assert Walk(board, word, [t]);
    } else {
      var os := Origins(board, word[0], avail, path);
      TryOriginsAsWrittenWalk(board, word, os, path);
    }
  }

  lemma {:induction false} TryOriginsAsWrittenWalk(board: Board, word: string, os: seq<Pos>, current: seq<Pos>)
    requires IsGrid(board) && |word| >= 2 && AllInBounds(os)
    requires forall t :: t in os ==> Cell(board, t) == [word[0]]
    requires TryOriginsAsWritten(board, word, os, current)
    ensures exists p :: Walk(board, word, p) && p[0] in os
    decreases |word|, 0, |os|
  {
    var o := os[0];
    if FindAsWritten(board, word[1..], Neighbors(o), current + [o]) {
      FindAsWrittenWalk(board, word[1..], Neighbors(o), current + [o]);
      var q :| Walk(board, word[1..], q) && q[0] in Neighbors(o);
      var p := [o] + q;
      forall i | 0 < i < |p| ensures p[i] == q[i - 1] && word[i] == word[1..][i - 1] {
      }
      assert Walk(board, word, p);
    } else {
      TryOriginsAsWrittenWalk(board, word, os[1..], []);
    }
  }

  /** From the top-level call: a word the source reports found can be
      spelled by some walk on the board. */
  lemma FindWordAsWrittenSound(board: Board, word: string)
    requires IsGrid(board) && |word| >= 1
    ensures FindAsWritten(board, word, [], []) ==> exists p :: Walk(board, word, p)
  {
    if FindAsWritten(board, word, [], []) {
      var all := ResetBoard().1;
      assert (0, 0) in all;
      FindAsWrittenWalk(board, word, all, []);
    }
  }

  /** One `A` at (0,0) with a `B` on each of its two neighbours. */
  const ReuseBoard: Board := [
    ["A", "B", "X", "X", "X"],
    ["B", "X", "X", "X", "X"],
    ["X", "X", "X", "X", "X"],
    ["X", "X", "X", "X", "X"],
    ["X", "X", "X", "X", "X"]
  ]

  lemma OnlyOneA(t: Pos)
    requires InBounds(t) && Cell(ReuseBoard, t) == "A"
    ensures t == (0, 0)
  {
  }

  /** A path spelling `ABA` on this board ends where it starts: the board
      has one `A`. */
  lemma AbaRevisits(board: Board, word: string, p: seq<Pos>)
    requires board == ReuseBoard && word == "ABA"
    requires ValidPath(board, word, p)
    ensures p[2] == p[0]
  {
    OnlyOneA(p[0]);
    OnlyOneA(p[2]);
  }

  /** One step of the search on a one-letter word: a free candidate tile
      holding it is enough. */
  lemma BaseStep(board: Board, word: string, avail: seq<Pos>, path: seq<Pos>, t: Pos)
    requires IsGrid(board) && |word| == 1 && AllInBounds(avail) && avail != []
    requires t in avail && t !in path && Cell(board, t) == word
    ensures FindAsWritten(board, word, avail, path)
  {
  }

  /** One step of the search on a longer word: it succeeds when the loop
      over the origin tiles does. */
  lemma LoopStep(board: Board, word: string, avail: seq<Pos>, path: seq<Pos>)
    requires IsGrid(board) && |word| >= 2 && AllInBounds(avail) && avail != []
    requires TryOriginsAsWritten(board, word, Origins(board, word[0], avail, path), path)
    ensures FindAsWritten(board, word, avail, path)
  {
  }

  lemma Corner()
    ensures Neighbors((0, 0)) == [(0, 1), (1, 0)]
  {
  }

  /** The loop over two origin tiles succeeds, whatever the first branch
      does, when the rest of the word is one letter sitting next to the
      second origin tile, off the one-tile path that branch starts from. */
  lemma SecondBranch(board: Board, word: string, os: seq<Pos>, current: seq<Pos>, t: Pos)
    requires IsGrid(board) && |word| == 2 && |os| == 2 && AllInBounds(os)
    requires t in Neighbors(os[1]) && t != os[1] && Cell(board, t) == [word[1]]
    ensures TryOriginsAsWritten(board, word, os, current)
  {
    assert word[1..] == [word[1]];
    var rest := os[1..];
    assert rest[0] == os[1] && rest[1..] == [];
    BaseStep(board, word[1..], Neighbors(os[1]), [] + [os[1]], t);
    assert TryOriginsAsWritten(board, word, rest, []);
  }

  /** When one tile alone holds the letter, the first origin tile of the
      top-level call is that tile. */
  lemma FirstOrigin(board: Board, letter: char, a: Pos)
    requires IsGrid(board) && InBounds(a) && Cell(board, a) == [letter]
    requires forall t :: InBounds(t) && Cell(board, t) == [letter] ==> t == a
    ensures var os := Origins(board, letter, ResetBoard().1, []); |os| > 0 && os[0] == a
  {
    var os := Origins(board, letter, ResetBoard().1, []);
    assert a in os;
    assert os[0] in os;
  }

  /** Two tiles off the path that both hold the letter are both origin
      tiles, in order. */
  lemma BothOrigins(board: Board, letter: char, b1: Pos, b2: Pos, path: seq<Pos>)
    requires IsGrid(board) && InBounds(b1) && InBounds(b2)
    requires b1 !in path && b2 !in path
    requires Cell(board, b1) == [letter] && Cell(board, b2) == [letter]
    ensures Origins(board, letter, [b1, b2], path) == [b1, b2]
  {
    assert [b1, b2][1..] == [b2];
    assert Origins(board, letter, [b2], path) == [b2];
  }

  /** The loop over origin tiles succeeds when its first branch does. */
  lemma FirstBranch(board: Board, word: string, os: seq<Pos>, current: seq<Pos>)
    requires IsGrid(board) && |word| >= 2 && AllInBounds(os) && os != []
    requires FindAsWritten(board, word[1..], Neighbors(os[0]), current + [os[0]])
    ensures TryOriginsAsWritten(board, word, os, current)
  {
  }

  /** From a tile `a` whose two neighbours both hold the first letter of a
      two-letter word whose second letter `a` holds, the search from the
      path `[a]` succeeds: its second branch no longer excludes `a`. */
  lemma BackToStart(board: Board, rest: string, a: Pos, b1: Pos, b2: Pos)
    requires IsGrid(board) && |rest| == 2
    requires InBounds(a) && Neighbors(a) == [b1, b2]
    requires Cell(board, a) == [rest[1]]
    requires Cell(board, b1) == [rest[0]] && Cell(board, b2) == [rest[0]]
    ensures FindAsWritten(board, rest, Neighbors(a), [] + [a])
  {
    var ns := [b1, b2];
    var path := [] + [a];
    assert b1 in Neighbors(a) && b2 in Neighbors(a);
    NeighborsSymmetric(a, b2);
    BothOrigins(board, rest[0], b1, b2, path);
    SecondBranch(board, rest, ns, path, a);
    LoopStep(board, rest, ns, path);
  }

  /** The shape of the failure: a three-letter word whose first and last
      letters are the same, held by one tile `a` only, whose two neighbours
      both hold the middle letter. The branch through `b2` starts from the
      path `[b2]` and accepts `a` again. */
  lemma ReuseAcrossBranches(board: Board, word: string, a: Pos, b1: Pos, b2: Pos)
    requires IsGrid(board) && |word| == 3 && word[2] == word[0]
    requires InBounds(a) && Neighbors(a) == [b1, b2]
    requires Cell(board, a) == [word[0]]
    requires Cell(board, b1) == [word[1]] && Cell(board, b2) == [word[1]]
    requires forall t :: InBounds(t) && Cell(board, t) == [word[0]] ==> t == a
    ensures FindAsWritten(board, word, [], [])
  {
    var all := ResetBoard().1;
    var os := Origins(board, word[0], all, []);
    FirstOrigin(board, word[0], a);
    BackToStart(board, word[1..], a, b1, b2);
    FirstBranch(board, word, os, []);
    LoopStep(board, word, all, []);
  }

  /** The board has the shape `ReuseAcrossBranches` needs, with `a` at
      (0,0) and its two neighbours (0,1) and (1,0). */
  lemma ReuseBoardShape(board: Board, word: string, a: Pos)
    requires board == ReuseBoard && word == "ABA" && a == (0, 0)
    ensures IsGrid(board) && |word| == 3 && word[2] == word[0]
    ensures InBounds(a) && Neighbors(a) == [(0, 1), (1, 0)]
    ensures Cell(board, a) == [word[0]]
    ensures Cell(board, (0, 1)) == [word[1]] && Cell(board, (1, 0)) == [word[1]]
    ensures forall t :: InBounds(t) && Cell(board, t) == [word[0]] ==> t == a
  {
    Corner();
    forall t | InBounds(t) && Cell(board, t) == [word[0]] ensures t == a {
      OnlyOneA(t);
    }
  }

  /** `ABA` needs the single `A` twice, so it cannot be traced, yet the
      source reports it found: from the `A`, the branch through the `B` at
      (0,1) fails, the path is rebound to empty, and the branch through the
      `B` at (1,0) then accepts the `A` at (0,0) again. The board and word
      are parameters rather than literals so that the verifier does not
      evaluate the whole search eagerly. */
  lemma ReusesTileOnLaterBranch(board: Board, word: string)
    requires board == ReuseBoard && word == "ABA"
    ensures FindAsWritten(board, word, [], [])
    ensures !FindWord(board, word)
  {
    forall p | ValidPath(board, word, p) ensures p[2] == p[0] {
      AbaRevisits(board, word, p);
    }
    var a := (0, 0);
    ReuseBoardShape(board, word, a);
    ReuseAcrossBranches(board, word, a, (0, 1), (1, 0));
  }

  /** At the top level, where the path starts empty, every branch of the
      source's loop starts from the same one-tile path, so a non-empty list
      of origin tiles that are all `o` succeeds exactly when the one branch
      through `o` does. */
  lemma {:induction false} SameOriginsAsWritten(board: Board, word: string, os: seq<Pos>, o: Pos)
    requires IsGrid(board) && |word| >= 2 && AllInBounds(os)
    requires forall t :: t in os ==> t == o
    ensures TryOriginsAsWritten(board, word, os, []) ==> FindAsWritten(board, word[1..], Neighbors(o), [o])
    ensures os != [] && FindAsWritten(board, word[1..], Neighbors(o), [o]) ==> TryOriginsAsWritten(board, word, os, [])
    decreases |os|
  {
    if os != [] {
      var t := os[0];
      assert t in os;
      assert [] + [t] == [o];
      if !FindAsWritten(board, word[1..], Neighbors(t), [] + [t]) {
        assert forall u :: u in os[1..] ==> u in os;
        SameOriginsAsWritten(board, word, os[1..], o);
      }
    }
  }

  /** A call of the source with a single origin tile `o` succeeds only
      through its one branch. */
  lemma SoleOriginAsWritten(board: Board, word: string, avail: seq<Pos>, path: seq<Pos>, o: Pos)
    requires IsGrid(board) && |word| >= 2 && AllInBounds(avail) && avail != []
    requires Origins(board, word[0], avail, path) == [o]
    requires FindAsWritten(board, word, avail, path)
    ensures FindAsWritten(board, word[1..], Neighbors(o), path + [o])
  {
    var os := Origins(board, word[0], avail, path);
    assert TryOriginsAsWritten(board, word, os, path);
    assert os[1..] == [];
    assert !TryOriginsAsWritten(board, word, os[1..], []);
  }

  /** The top-level call of the source is its loop over every tile
      holding the first letter, with an empty path. */
  lemma TopLevelAsWritten(board: Board, word: string)
    requires IsGrid(board) && |word| >= 2
    ensures FindAsWritten(board, word, [], [])
        <==> TryOriginsAsWritten(board, word, Origins(board, word[0], ResetBoard().1, []), [])
  {
  }

  /** The source succeeds on a one-letter word only through a free
      candidate tile holding it. */
  lemma LastLetterAsWritten(board: Board, word: string, avail: seq<Pos>, path: seq<Pos>)
    requires IsGrid(board) && |word| == 1 && AllInBounds(avail) && avail != []
    requires FindAsWritten(board, word, avail, path)
    ensures exists t :: t in avail && t !in path && Cell(board, t) == word
  {
  }

  lemma LastLetterOfFive(word: string)
    requires |word| == 5
    ensures word[4..] == [word[4]]
  {
  }

  /** A five-letter word whose first letter only `t0` holds, and whose
      every later step has a single origin tile, is not found by the source
      when its last letter is missing from the last tile's free neighbours:
      a single origin tile means the source never reaches the branch that
      forgets the path. */
  lemma SoleOriginChainAsWritten(board: Board, word: string, t0: Pos, t1: Pos, t2: Pos, t3: Pos)
    requires IsGrid(board) && |word| == 5
    requires InBounds(t0) && InBounds(t1) && InBounds(t2) && InBounds(t3)
    requires forall t :: InBounds(t) && Cell(board, t) == [word[0]] ==> t == t0
    requires Origins(board, word[1], Neighbors(t0), [t0]) == [t1]
    requires Origins(board, word[2], Neighbors(t1), [t0] + [t1]) == [t2]
    requires Origins(board, word[3], Neighbors(t2), [t0] + [t1] + [t2]) == [t3]
    requires forall t :: t in Neighbors(t3) && t !in [t0] + [t1] + [t2] + [t3] ==> Cell(board, t) != [word[4]]
    ensures !FindAsWritten(board, word, [], [])
  {
    if FindAsWritten(board, word, [], []) {
      var os := Origins(board, word[0], ResetBoard().1, []);
      TopLevelAsWritten(board, word);
      SameOriginsAsWritten(board, word, os, t0);
      var w1 := word[1..];
      assert w1[0] == word[1] && w1[1..] == word[2..];
      SoleOriginAsWritten(board, w1, Neighbors(t0), [t0], t1);
      var w2 := word[2..];
      assert w2[0] == word[2] && w2[1..] == word[3..];
      SoleOriginAsWritten(board, w2, Neighbors(t1), [t0] + [t1], t2);
      var w3 := word[3..];
      assert w3[0] == word[3] && w3[1..] == word[4..];
      SoleOriginAsWritten(board, w3, Neighbors(t2), [t0] + [t1] + [t2], t3);
      var path := [t0] + [t1] + [t2] + [t3];
      LastLetterAsWritten(board, word[4..], Neighbors(t3), path);
      var t :| t in Neighbors(t3) && t !in path && Cell(board, t) == word[4..];
      LastLetterOfFive(word);
    }
  }
}
