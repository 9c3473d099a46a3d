/**
 The outcomes the source's doctests promise (boggle.py:25-73 and 83-95),
 proved of the model. Board text is written one doctest line at a time,
 each line with the newline before it, followed by the final newline.

 Lemmas that mention a search take the board as a parameter fixed by their
 `requires`: with a literal board and word the verifier would try to
 evaluate the whole search eagerly.
 */
module Doctests {
  import opened Tokens
  import opened Grid
  import opened Search
  import opened AsWritten

  /** The lines of the first doctest board, each with the newline before it. */
  const Lines1: seq<string> := ["\nN C A N E", "\nO U I O P", "\nZ Q Z O N", "\nF A D P L", "\nE D E A Z"]

  const Text1: string := Lines1[0] + Lines1[1] + Lines1[2] + Lines1[3] + Lines1[4] + "\n"

  const Board1: Board := [
    ["N", "C", "A", "N", "E"],
    ["O", "U", "I", "O", "P"],
    ["Z", "Q", "Z", "O", "N"],
    ["F", "A", "D", "P", "L"],
    ["E", "D", "E", "A", "Z"]
  ]

  const Lines2: seq<string> := ["\nE D O S Z", "\nN S O N R", "\nO U O O P", "\nZ Q Z O R", "\nF A D P L"]

  const Text2: string := Lines2[0] + Lines2[1] + Lines2[2] + Lines2[3] + Lines2[4] + "\n"

  const Board2: Board := [
    ["E", "D", "O", "S", "Z"],
    ["N", "S", "O", "N", "R"],
    ["O", "U", "O", "O", "P"],
    ["Z", "Q", "Z", "O", "R"],
    ["F", "A", "D", "P", "L"]
  ]

  /** No character of `s` is whitespace. */
  predicate NoSpace(s: string) {
    forall k :: 0 <= k < |s| ==> !IsSpace(s[k])
  }

  /** The letters of `row`, each preceded by one separator: `sep` before the
      first, a space before the others. A doctest line is `Spaced('\n', row)`. */
  function Spaced(sep: char, row: string): (t: string) {
    seq(2 * |row|, k requires 0 <= k < 2 * |row| => if k % 2 == 1 then row[k / 2] else if k == 0 then sep else ' ')
  }

  /** The characters of `row` as one-character tokens. */
  function Letters(row: string): (ts: seq<string>) {
    seq(|row|, k requires 0 <= k < |row| => [row[k]])
  }

  /** A line of letters, each after one whitespace character, splits into
      those letters. */
  lemma SplitSpaced(sep: char, row: string)
    requires IsSpace(sep) && NoSpace(row)
    ensures Split(Spaced(sep, row)) == Letters(row)
  {
    var t := Spaced(sep, row);
    forall k | 0 <= k < |t| / 2 ensures IsSpace(t[2 * k]) && !IsSpace(t[2 * k + 1]) {
      assert (2 * k) % 2 == 0 && (2 * k + 1) % 2 == 1 && (2 * k + 1) / 2 == k;
    }
    SplitAlternating(t);
    forall k | 0 <= k < |row| ensures Split(t)[k] == Letters(row)[k] {
      assert (2 * k + 1) % 2 == 1 && (2 * k + 1) / 2 == k;
    }
  }

  /** Lines that each start with whitespace, then trailing whitespace,
      split into the tokens of the lines one after another. */
  lemma SplitLines(r0: string, r1: string, r2: string, r3: string, r4: string, tail: string)
    requires |r1| > 0 && IsSpace(r1[0]) && |r2| > 0 && IsSpace(r2[0])
    requires |r3| > 0 && IsSpace(r3[0]) && |r4| > 0 && IsSpace(r4[0])
    requires |tail| > 0 && AllSpace(tail)
    ensures Split(r0 + r1 + r2 + r3 + r4 + tail) == Split(r0) + Split(r1) + Split(r2) + Split(r3) + Split(r4)
  {
    SplitSkipsSpace(tail, []);
    assert tail + [] == tail;
    var a1 := r0 + r1;
    var a2 := a1 + r2;
    var a3 := a2 + r3;
    var a4 := a3 + r4;
    SplitAppend(r0, r1);
    SplitAppend(a1, r2);
    SplitAppend(a2, r3);
    SplitAppend(a3, r4);
    SplitAppend(a4, tail);
  }

  /** Twenty-five tokens, five rows' worth, are dealt back into those rows. */
  lemma DealRows(text: string, b: Board)
    requires IsGrid(b)
    requires Split(text) == b[0] + b[1] + b[2] + b[3] + b[4]
    ensures MakeBoard(text) == b
  {
    var letters := Split(text);
    var m := MakeBoard(text);
    assert letters[0..5] == b[0];
    assert letters[5..10] == b[1];
    assert letters[10..15] == b[2];
    assert letters[15..20] == b[3];
    assert letters[20..25] == b[4];
    assert m[0] == b[0] && m[1] == b[1] && m[2] == b[2] && m[3] == b[3] && m[4] == b[4];
  }

  /** Five lines, each starting with whitespace and splitting into one row,
      followed by a newline, make the board of those rows. */
  lemma BoardFromLines(l0: string, l1: string, l2: string, l3: string, l4: string, b: Board)
    requires IsGrid(b)
    requires |l1| > 0 && IsSpace(l1[0]) && |l2| > 0 && IsSpace(l2[0])
    requires |l3| > 0 && IsSpace(l3[0]) && |l4| > 0 && IsSpace(l4[0])
    requires Split(l0) == b[0] && Split(l1) == b[1] && Split(l2) == b[2]
    requires Split(l3) == b[3] && Split(l4) == b[4]
    ensures MakeBoard(l0 + l1 + l2 + l3 + l4 + "\n") == b
  {
    var nl := "\n";
    assert AllSpace(nl);
    SplitLines(l0, l1, l2, l3, l4, nl);
    DealRows(l0 + l1 + l2 + l3 + l4 + nl, b);
  }

  /** Five rows of five letters, written as in the doctests (each row on a
      new line, letters separated by spaces, a final newline), make the
      board of those letters. */
  lemma BoardOfRows(r0: string, r1: string, r2: string, r3: string, r4: string)
    requires |r0| == N && |r1| == N && |r2| == N && |r3| == N && |r4| == N
    requires NoSpace(r0) && NoSpace(r1) && NoSpace(r2) && NoSpace(r3) && NoSpace(r4)
    ensures MakeBoard(Spaced('\n', r0) + Spaced('\n', r1) + Spaced('\n', r2) + Spaced('\n', r3) + Spaced('\n', r4) + "\n")
         == [Letters(r0), Letters(r1), Letters(r2), Letters(r3), Letters(r4)]
  {
    var l0, l1, l2, l3, l4 := Spaced('\n', r0), Spaced('\n', r1), Spaced('\n', r2), Spaced('\n', r3), Spaced('\n', r4);
    SplitSpaced('\n', r0);
    SplitSpaced('\n', r1);
    SplitSpaced('\n', r2);
    SplitSpaced('\n', r3);
    SplitSpaced('\n', r4);
    BoardFromLines(l0, l1, l2, l3, l4, [Letters(r0), Letters(r1), Letters(r2), Letters(r3), Letters(r4)]);
  }

  /** The text of board 1 is its rows laid out as the doctest writes them. */
  lemma Text1Layout()
    ensures Text1 == Spaced('\n', "NCANE") + Spaced('\n', "OUIOP") + Spaced('\n', "ZQZON") + Spaced('\n', "FADPL") + Spaced('\n', "EDEAZ") + "\n"
  {
    assert Lines1[0] == Spaced('\n', "NCANE");
    assert Lines1[1] == Spaced('\n', "OUIOP");
    assert Lines1[2] == Spaced('\n', "ZQZON");
    assert Lines1[3] == Spaced('\n', "FADPL");
    assert Lines1[4] == Spaced('\n', "EDEAZ");
  }

  lemma Board1Letters()
    ensures Board1 == [Letters("NCANE"), Letters("OUIOP"), Letters("ZQZON"), Letters("FADPL"), Letters("EDEAZ")]
    ensures NoSpace("NCANE") && NoSpace("OUIOP") && NoSpace("ZQZON") && NoSpace("FADPL") && NoSpace("EDEAZ")
  {
    assert Board1[0] == Letters("NCANE");
    assert Board1[1] == Letters("OUIOP");
    assert Board1[2] == Letters("ZQZON");
    assert Board1[3] == Letters("FADPL");
    assert Board1[4] == Letters("EDEAZ");
  }

  lemma Board1FromText()
    ensures MakeBoard(Text1) == Board1
  {
    Board1Letters();
    BoardOfRows("NCANE", "OUIOP", "ZQZON", "FADPL", "EDEAZ");
    Text1Layout();
  }

  /** The text of board 2 is its rows laid out as the doctest writes them. */
  lemma Text2Layout()
    ensures Text2 == Spaced('\n', "EDOSZ") + Spaced('\n', "NSONR") + Spaced('\n', "OUOOP") + Spaced('\n', "ZQZOR") + Spaced('\n', "FADPL") + "\n"
  {
    assert Lines2[0] == Spaced('\n', "EDOSZ");
    assert Lines2[1] == Spaced('\n', "NSONR");
    assert Lines2[2] == Spaced('\n', "OUOOP");
    assert Lines2[3] == Spaced('\n', "ZQZOR");
    assert Lines2[4] == Spaced('\n', "FADPL");
  }

  lemma Board2Letters()
    ensures Board2 == [Letters("EDOSZ"), Letters("NSONR"), Letters("OUOOP"), Letters("ZQZOR"), Letters("FADPL")]
    ensures NoSpace("EDOSZ") && NoSpace("NSONR") && NoSpace("OUOOP") && NoSpace("ZQZOR") && NoSpace("FADPL")
  {
    assert Board2[0] == Letters("EDOSZ");
    assert Board2[1] == Letters("NSONR");
    assert Board2[2] == Letters("OUOOP");
    assert Board2[3] == Letters("ZQZOR");
    assert Board2[4] == Letters("FADPL");
  }

  lemma Board2FromText()
    ensures MakeBoard(Text2) == Board2
  {
    Board2Letters();
    BoardOfRows("EDOSZ", "NSONR", "OUOOP", "ZQZOR", "FADPL");
    Text2Layout();
  }

  /** The `make_board` doctest: five rows, the first one `N C A N E`. */
  lemma MakeBoardDoctest()
    ensures |MakeBoard(Text1)| == 5
    ensures MakeBoard(Text1)[0] == ["N", "C", "A", "N", "E"]
  {
    Board1FromText();
  }

  /** A valid path for the word on the board built from the text makes
      `find` succeed. */
  lemma FoundAlong(text: string, board: Board, word: string, p: seq<Pos>)
    requires MakeBoard(text) == board && IsGrid(board) && |word| >= 1
    requires ValidPath(board, word, p)
    ensures IsGrid(MakeBoard(text)) && FindWord(MakeBoard(text), word)
  {
  }

  lemma NoonPath()
    ensures ValidPath(Board1, "NOON", [(0, 3), (1, 3), (2, 3), (2, 4)])
  {
  }

  /** `NOON` is found: (0,3), (1,3), (2,3), (2,4). */
  lemma DoctestNoon()
    ensures IsGrid(MakeBoard(Text1)) && FindWord(MakeBoard(Text1), "NOON")
  {
    Board1FromText();
    NoonPath();
    FoundAlong(Text1, Board1, "NOON", [(0, 3), (1, 3), (2, 3), (2, 4)]);
  }

  lemma NopePath()
    ensures ValidPath(Board1, "NOPE", [(0, 3), (1, 3), (1, 4), (0, 4)])
  {
  }

  /** `NOPE` is found: (0,3), (1,3), (1,4), (0,4). */
  lemma DoctestNope()
    ensures IsGrid(MakeBoard(Text1)) && FindWord(MakeBoard(Text1), "NOPE")
  {
    Board1FromText();
    NopePath();
    FoundAlong(Text1, Board1, "NOPE", [(0, 3), (1, 3), (1, 4), (0, 4)]);
  }

  lemma FadedPath()
    ensures ValidPath(Board1, "FADED", [(3, 0), (3, 1), (3, 2), (4, 2), (4, 1)])
  {
  }

  /** `FADED` is found: (3,0), (3,1), (3,2), (4,2), (4,1). */
  lemma DoctestFaded()
    ensures IsGrid(MakeBoard(Text1)) && FindWord(MakeBoard(Text1), "FADED")
  {
    Board1FromText();
    FadedPath();
    FoundAlong(Text1, Board1, "FADED", [(3, 0), (3, 1), (3, 2), (4, 2), (4, 1)]);
  }

  lemma NooooosPath(board: Board, word: string, p: seq<Pos>)
    requires board == Board2 && word == "NOOOOS"
    requires p == [(1, 3), (2, 3), (2, 2), (1, 2), (0, 2), (0, 3)]
    ensures ValidPath(board, word, p)
  {
    assert forall i :: 0 <= i < |p| ==> InBounds(p[i]) && Cell(board, p[i]) == [word[i]];
    assert forall i :: 0 <= i < |p| - 1 ==> Adjacent(p[i], p[i + 1]);
  }

  /** `NOOOOS` on the second board: (1,3), (2,3), (2,2), (1,2), (0,2), (0,3). */
  lemma DoctestNooooos()
    ensures IsGrid(MakeBoard(Text2)) && FindWord(MakeBoard(Text2), "NOOOOS")
  {
    Board2FromText();
    NooooosPath(Board2, "NOOOOS", [(1, 3), (2, 3), (2, 2), (1, 2), (0, 2), (0, 3)]);
    FoundAlong(Text2, Board2, "NOOOOS", [(1, 3), (2, 3), (2, 2), (1, 2), (0, 2), (0, 3)]);
  }

  lemma OnlyC(t: Pos)
    requires InBounds(t) && Cell(Board1, t) == "C"
    ensures t == (0, 1)
  {
  }

  lemma OnlyI(t: Pos)
    requires InBounds(t) && Cell(Board1, t) == "I"
    ensures t == (1, 2)
  {
  }

  /** The only `A` next to the `C` is at (0,2). */
  lemma CanonSecond(t: Pos)
    requires InBounds(t) && Adjacent((0, 1), t) && Cell(Board1, t) == "A"
    ensures t == (0, 2)
  {
  }

  /** The only `N` next to (0,2) is at (0,3). */
  lemma CanonThird(t: Pos)
    requires InBounds(t) && Adjacent((0, 2), t) && Cell(Board1, t) == "N"
    ensures t == (0, 3)
  {
  }

  /** The only `O` next to (0,3) is at (1,3). */
  lemma CanonFourth(t: Pos)
    requires InBounds(t) && Adjacent((0, 3), t) && Cell(Board1, t) == "O"
    ensures t == (1, 3)
  {
  }

  /** The only `N` next to (1,3) is the one at (0,3) again. */
  lemma CanonFifth(t: Pos)
    requires InBounds(t) && Adjacent((1, 3), t) && Cell(Board1, t) == "N"
    ensures t == (0, 3)
  {
  }

  /** A path for `CANON` is forced along C(0,1), A(0,2), N(0,3), O(1,3),
      and its last `N` is then the one at (0,3) again. */
  lemma CanonRevisits(p: seq<Pos>)
    requires |p| == 5 && forall i :: 0 <= i < 5 ==> InBounds(p[i]) && Cell(Board1, p[i]) == ["CANON"[i]]
    requires forall i :: 0 <= i < 4 ==> Adjacent(p[i], p[i + 1])
    ensures p[0] == (0, 1) && p[1] == (0, 2) && p[2] == (0, 3) && p[3] == (1, 3)
    ensures p[4] == p[2]
  {
    OnlyC(p[0]);
    CanonSecond(p[1]);
    CanonThird(p[2]);
    CanonFourth(p[3]);
    CanonFifth(p[4]);
  }

  /** No neighbour of the `I` at (1,2) holds an `N`. */
  lemma NoNNextToI(t: Pos)
    requires InBounds(t) && Adjacent((1, 2), t)
    ensures Cell(Board1, t) != "N"
  {
  }

  /** On a path spelling `QUI`, the tile after the `I` holds no `N`: the
      only `I` is at (1,2), and the `N` at (0,3) is diagonal to it. */
  lemma QuineStuck(p: seq<Pos>)
    requires |p| == 5 && forall i :: 0 <= i < 5 ==> InBounds(p[i])
    requires Cell(Board1, p[2]) == "I" && Adjacent(p[2], p[3])
    ensures Cell(Board1, p[3]) != "N"
  {
    OnlyI(p[2]);
    NoNNextToI(p[3]);
  }

  /** `CANON` is not found: the last `N` would reuse a tile. */
  lemma DoctestCanon()
    ensures IsGrid(MakeBoard(Text1)) && !FindWord(MakeBoard(Text1), "CANON")
  {
    Board1FromText();
    forall p | ValidPath(Board1, "CANON", p) ensures p[4] == p[2] {
      CanonRevisits(p);
    }
  }

  /** `QUINE` is not found: it would need a diagonal move. */
  lemma DoctestQuine()
    ensures IsGrid(MakeBoard(Text1)) && !FindWord(MakeBoard(Text1), "QUINE")
  {
    Board1FromText();
    forall p | ValidPath(Board1, "QUINE", p) ensures Cell(Board1, p[3]) != "N" {
      QuineStuck(p);
    }
  }

  /** The source as written also answers `False` for `QUINE`: even with
      tiles reused, no walk spells it. */
  lemma DoctestQuineAsWritten()
    ensures IsGrid(MakeBoard(Text1)) && !FindAsWritten(MakeBoard(Text1), "QUINE", [], [])
  {
    Board1FromText();
    FindWordAsWrittenSound(Board1, "QUINE");
    forall p | Walk(Board1, "QUINE", p) ensures Cell(Board1, p[3]) != "N" {
      QuineStuck(p);
    }
  }

  /** The source as written also answers `True` for the four words the
      doctests find: it finds every word that can be traced. */
  lemma DoctestsFoundAsWritten()
    ensures IsGrid(MakeBoard(Text1)) && IsGrid(MakeBoard(Text2))
    ensures FindAsWritten(MakeBoard(Text1), "NOON", [], [])
    ensures FindAsWritten(MakeBoard(Text1), "NOPE", [], [])
    ensures FindAsWritten(MakeBoard(Text1), "FADED", [], [])
    ensures FindAsWritten(MakeBoard(Text2), "NOOOOS", [], [])
  {
    DoctestNoon();
    FindWordAsWrittenComplete(MakeBoard(Text1), "NOON");
    DoctestNope();
    FindWordAsWrittenComplete(MakeBoard(Text1), "NOPE");
    DoctestFaded();
    FindWordAsWrittenComplete(MakeBoard(Text1), "FADED");
    DoctestNooooos();
    FindWordAsWrittenComplete(MakeBoard(Text2), "NOOOOS");
  }

  /** The candidate tiles holding the letter and off the path, for three
      candidates. */
  lemma OriginsOfThree(board: Board, letter: char, x: Pos, y: Pos, z: Pos, path: seq<Pos>)
    requires IsGrid(board) && InBounds(x) && InBounds(y) && InBounds(z)
    ensures Origins(board, letter, [x, y, z], path)
         == (if x !in path && Cell(board, x) == [letter] then [x] else [])
          + (if y !in path && Cell(board, y) == [letter] then [y] else [])
          + (if z !in path && Cell(board, z) == [letter] then [z] else [])
  {
    assert [x, y, z][1..] == [y, z];
    assert [y, z][1..] == [z];
    assert [z][1..] == [];
    assert Origins(board, letter, [z], path) == (if z !in path && Cell(board, z) == [letter] then [z] else []);
  }

  /** An inner tile of the top row has its east, west and south
      neighbours, in that order. */
  lemma TopRowNeighbors(c: int)
    requires 1 <= c < N - 1
    ensures Neighbors((0, c)) == [(0, c + 1), (0, c - 1), (1, c)]
  {
  }

  /** The board facts that decide the source's search for `CANON`: one
      `C`, and along C(0,1), A(0,2), N(0,3), O(1,3) no second candidate
      for the next letter and no free `N` next to the `O`. */
  ghost predicate CanonShape(board: Board)
    requires IsGrid(board)
  {
    && (forall t :: InBounds(t) && Cell(board, t) == "C" ==> t == (0, 1))
    && Cell(board, (0, 2)) == "A" && Cell(board, (0, 0)) != "A" && Cell(board, (1, 1)) != "A"
    && Cell(board, (0, 3)) == "N" && Cell(board, (1, 2)) != "N"
    && Cell(board, (1, 3)) == "O" && Cell(board, (0, 4)) != "O"
    && Cell(board, (1, 4)) != "N" && Cell(board, (2, 3)) != "N"
  }

  /** The origin lists along the search for `CANON` on such a board. */
  lemma CanonStepA(board: Board, t0: Pos, t1: Pos)
    requires IsGrid(board) && CanonShape(board) && t0 == (0, 1) && t1 == (0, 2)
    ensures Origins(board, 'A', Neighbors(t0), [t0]) == [t1]
  {
    TopRowNeighbors(1);
    OriginsOfThree(board, 'A', (0, 2), (0, 0), (1, 1), [t0]);
  }

  lemma CanonStepN(board: Board, t0: Pos, t1: Pos, t2: Pos)
    requires IsGrid(board) && CanonShape(board) && t0 == (0, 1) && t1 == (0, 2) && t2 == (0, 3)
    ensures Origins(board, 'N', Neighbors(t1), [t0] + [t1]) == [t2]
  {
    TopRowNeighbors(2);
    var path := [t0] + [t1];
    assert (0, 3) !in path && (0, 1) in path;
    assert Cell(board, (0, 3)) == ['N'] && Cell(board, (1, 2)) != ['N'];
    OriginsOfThree(board, 'N', (0, 3), (0, 1), (1, 2), path);
  }

  lemma CanonStepO(board: Board, t0: Pos, t1: Pos, t2: Pos, t3: Pos)
    requires IsGrid(board) && CanonShape(board)
    requires t0 == (0, 1) && t1 == (0, 2) && t2 == (0, 3) && t3 == (1, 3)
    ensures Origins(board, 'O', Neighbors(t2), [t0] + [t1] + [t2]) == [t3]
  {
    TopRowNeighbors(3);
    var path := [t0] + [t1] + [t2];
    assert (1, 3) !in path && (0, 2) in path;
    OriginsOfThree(board, 'O', (0, 4), (0, 2), (1, 3), path);
  }

  lemma CanonStepLast(board: Board, t0: Pos, t1: Pos, t2: Pos, t3: Pos)
    requires IsGrid(board) && CanonShape(board)
    requires t0 == (0, 1) && t1 == (0, 2) && t2 == (0, 3) && t3 == (1, 3)
    ensures forall t :: t in Neighbors(t3) && t !in [t0] + [t1] + [t2] + [t3] ==> Cell(board, t) != "N"
  {
    var path := [t0] + [t1] + [t2] + [t3];
    forall t | t in Neighbors(t3) && t !in path ensures Cell(board, t) != "N" {
      AdjacentIsStep(t3, t);
    }
  }

  /** On such a board the source as written does not find `CANON`. */
  lemma CanonShapeAsWritten(board: Board, word: string)
    requires IsGrid(board) && CanonShape(board)
    requires |word| == 5 && word[0] == 'C' && word[1] == 'A' && word[2] == 'N' && word[3] == 'O' && word[4] == 'N'
    ensures !FindAsWritten(board, word, [], [])
  {
    var t0, t1, t2, t3 := (0, 1), (0, 2), (0, 3), (1, 3);
    CanonStepA(board, t0, t1);
    CanonStepN(board, t0, t1, t2);
    CanonStepO(board, t0, t1, t2, t3);
    CanonStepLast(board, t0, t1, t2, t3);
    SoleOriginChainAsWritten(board, word, t0, t1, t2, t3);
  }

  /** The source as written also answers `False` for `CANON` on the first
      board: each step of its search has a single origin tile, and the last
      `N` is already on the path. */
  lemma DoctestCanonAsWritten()
    ensures IsGrid(MakeBoard(Text1)) && !FindAsWritten(MakeBoard(Text1), "CANON", [], [])
  {
    Board1FromText();
    forall t | InBounds(t) && Cell(Board1, t) == "C" ensures t == (0, 1) {
      OnlyC(t);
    }
    assert CanonShape(Board1);
    CanonShapeAsWritten(Board1, "CANON");
  }
}
