# Boggle word check, modelled in Dafny

`boggle.py` decides whether a word can be traced on a 5x5 Boggle board. You start on any tile. Each step moves to an orthogonal (north, east, west, south) neighbour. No tile may be used twice. The board is built from text by `make_board`, which splits the text on whitespace and deals the tokens into five rows of five. The search is `find`, a recursive backtracking procedure. It is helped by:

- `find_neighbors`: the on-board orthogonal neighbours of a tile;
- `reset_board`: the empty path and all 25 tiles;
- `run_base_case`: the one-letter case.

The project has five modules:

- `Tokens` (`tokens.dfy`) models argument-less `str.split()`. It proves that splitting recovers the tokens however they are separated by whitespace.
- `Grid` (`grid.dfy`) covers the board and its helpers:
  - `MakeBoard` models `make_board`, including short and long input, with Python's slice clamping written out.
  - `Neighbors` models `find_neighbors`, in the source's order.
  - `ResetBoard` models `reset_board`, in row-major order.
- `Search` (`search.dfy`) is the search as it is documented: no tile is used twice (boggle.py:5-7, 155-157).
  - `RunBaseCase` and `Origins` model the base case and the `origin_tile` list.
  - `Find` and `TryOrigins` are the recursion and its loop. Every branch carries the path extended by its own tile.
  - `FindWord` is the top-level call. It is proved sound and complete against `ValidPath`, a declarative definition of a traceable word.
- `AsWritten` (`as_written.dfy`) is the search as the code behaves. The path is one shared list, and after a failed branch it is rebound to a new empty list (boggle.py:167). `FindAsWritten` and `TryOriginsAsWritten` carry the list the next tile is appended to. The module proves four things:
  - the source still finds every traceable word;
  - whatever it finds can be spelled by a walk that may repeat tiles;
  - on some boards it accepts a word that reuses a tile (see "Findings");
  - while every step has a single candidate tile, the forgetful branch is never reached.
- `Doctests` (`doctests.dfy`) proves the module's doctests from the doctest text itself. The text goes through `MakeBoard` to the search, both for the intended search and, where the answer is the same, for the source as written.

Two behaviours of the code are modelled as written:

- Fewer than 25 tokens is not an error. `make_board` builds short rows (boggle.py:100-106), and `MakeBoard` does the same.
- A failed branch rebinds the path to `[]` (boggle.py:167), although boggle.py:5-7 and 155-157 say no tile is used twice. `AsWritten` models this; see "Findings".

The top-level call uses the default arguments `available_tiles=None` and `current_path=[]`. It is modelled as a call with an empty candidate list and an empty path. With an empty candidate list, both `find` and the model reset to all tiles and an empty path, so the shared default list is never appended to.

## Model

| member | source | states |
|---|---|---|
| Tokens.Split | boggle.py:98 | every token is non-empty and free of whitespace, and the tokens laid end to end are exactly the non-whitespace characters of the text |
| Tokens.SplitLay | boggle.py:98 | tokens laid out with any whitespace runs around them, non-empty between them, split back into exactly those tokens |
| Tokens.SplitAppend | boggle.py:98 | splitting distributes over a concatenation whose second part starts with whitespace: no token straddles the seam |
| Tokens.SplitAlternating | boggle.py:98 | a line that alternates one whitespace character and one letter splits into those letters as one-character tokens |
| Grid.Slice | boggle.py:101-105 | Python's `xs[lo:hi]`: its length is the clamped bounds' difference and element k is `xs[lo + k]` |
| Grid.MakeBoard | boggle.py:98-108 | the board has five rows. The rows laid end to end are the first min(n, 25) tokens. Row i has min(5, n - 5i) tokens, or none. With at least 25 tokens it is a 5x5 grid: row i is tokens 5i..5i+4, cell (i, j) is token 5i+j, and later tokens are ignored |
| Grid.DealtRows | boggle.py:100-106 | the five slices `[0:5]` … `[20:25]` put back together are the first 25 tokens, or all of them when there are fewer |
| Grid.Neighbors | boggle.py:111-118 | a tile is listed exactly when it is on the board and at Manhattan distance 1: never diagonal, never the tile itself. An on-board tile has at least two neighbours |
| Grid.NeighborsInOrder | boggle.py:112-117 | the neighbours come in the source's candidate order (column + 1, column - 1, row - 1, row + 1), each at most once |
| Grid.AdjacentIsStep | boggle.py:112-115 | adjacency is exactly one of the four candidate offsets |
| Grid.NeighborsSymmetric | boggle.py:111-118 | for on-board tiles, q is a neighbour of p exactly when p is a neighbour of q |
| Grid.ResetBoard | boggle.py:120-122 | the path is empty and the tile list holds exactly the on-board tiles |
| Grid.ResetBoardOrder | boggle.py:121 | the tile list has 25 entries, row by row and left to right, each tile once |
| Search.RunBaseCase | boggle.py:124-127 | true exactly when some candidate tile not on the path holds the (one-letter) word |
| Search.Origins | boggle.py:148 | a tile is an origin exactly when it is a candidate, off the path and holds the first letter, and there are no more origins than candidates |
| Search.FindWord | boggle.py:129-169 | the word is found exactly when some valid path traces it: on-board tiles with the word's letters, pairwise distinct, each step orthogonal |
| Search.FindWordCorrect | boggle.py:129-169 | from the top-level call (empty candidates, empty path) the search succeeds if and only if a valid path exists |
| Search.FindSound | boggle.py:136-164 | when the search succeeds from non-empty candidates, some valid path for the word starts at a candidate and avoids the path |
| Search.TryOriginsSound | boggle.py:153-164 | when the loop over the origin tiles succeeds, some valid path starts at one of them and avoids the path |
| Search.FindComplete | boggle.py:136-164 | every valid path that starts at a candidate and avoids the path makes the search succeed: backtracking never gives up early |
| Search.TryOriginsComplete | boggle.py:153-164 | every valid path starting at an origin tile and avoiding the path makes the loop succeed, whichever origin it starts from |
| Search.FindSingleLetter | boggle.py:139-141 | a one-letter word is found exactly when some tile holds that letter |
| AsWritten.FindAsWrittenComplete | boggle.py:136-167 | the source's search succeeds on every valid path that starts at a candidate and avoids the path, despite the path being rebound |
| AsWritten.TryOriginsAsWrittenComplete | boggle.py:153-167 | the source's loop succeeds on every valid path from one of its origins, even after earlier branches reset the path to empty |
| AsWritten.FindWordAsWrittenComplete | boggle.py:129-169 | every word the intended search finds, the source finds too |
| AsWritten.FindAsWrittenWalk | boggle.py:136-167 | when the source's search succeeds, the word can be spelled by a walk of orthogonal steps (tiles possibly repeated) starting at a candidate |
| AsWritten.TryOriginsAsWrittenWalk | boggle.py:153-167 | when the source's loop succeeds, such a walk starts at one of the origin tiles |
| AsWritten.FindWordAsWrittenSound | boggle.py:129-169 | a word the source reports found can be spelled by some walk on the board; only the no-reuse rule is lost |
| AsWritten.ReuseAcrossBranches | boggle.py:153-167 | if the word is x y x, the only x tile has exactly two neighbours and both hold y, then the source reports the word found |
| AsWritten.ReusesTileOnLaterBranch | boggle.py:167 | on the board with one `A` in a corner and a `B` on both its neighbours, the source finds `ABA`, but no valid path spells it |
| AsWritten.SameOriginsAsWritten | boggle.py:153-167 | at the top level, a non-empty loop over origin tiles that are all the same tile succeeds exactly when the one branch through that tile does |
| AsWritten.SoleOriginAsWritten | boggle.py:153-167 | with a single origin tile the source succeeds only through that tile's branch, with the path extended by it |
| AsWritten.LastLetterAsWritten | boggle.py:140-141 | on a one-letter word the source succeeds only through a free candidate tile holding the letter |
| AsWritten.SoleOriginChainAsWritten | boggle.py:148-167 | a five-letter word whose first letter sits on one tile is not found by the source when every later step has one origin and the last tile has no free neighbour with the last letter |
| Doctests.BoardOfRows | boggle.py:98-108 | text made of five lines of five space-separated letters, each line after a newline, becomes the board of those letters |
| Doctests.Board1FromText | boggle.py:25-31 | the first doctest text builds the board N C A N E / O U I O P / Z Q Z O N / F A D P L / E D E A Z |
| Doctests.Board2FromText | boggle.py:64-70 | the second doctest text builds the board E D O S Z / N S O N R / O U O O P / Z Q Z O R / F A D P L |
| Doctests.MakeBoardDoctest | boggle.py:83-95 | the built board has 5 rows and its first row is `['N', 'C', 'A', 'N', 'E']` |
| Doctests.DoctestNoon | boggle.py:33-36 | `NOON` is found on the first board |
| Doctests.DoctestNope | boggle.py:38-41 | `NOPE` is found on the first board |
| Doctests.CanonRevisits | boggle.py:17-21 | any path spelling `CANON` on the first board is forced through C(0,1), A(0,2), N(0,3), O(1,3), and its last `N` is the (0,3) tile again |
| Doctests.DoctestCanon | boggle.py:43-47 | `CANON` is not found on the first board |
| Doctests.QuineStuck | boggle.py:49-50 | after the only `I`, at (1,2), no orthogonal step reaches an `N`: the `N` at (0,3) is diagonal |
| Doctests.DoctestQuine | boggle.py:49-53 | `QUINE` is not found on the first board |
| Doctests.DoctestFaded | boggle.py:55-58 | `FADED` is found on the first board |
| Doctests.DoctestNooooos | boggle.py:61-73 | `NOOOOS` is found on the second board |
| Doctests.DoctestsFoundAsWritten | boggle.py:33-73 | the source as written also answers `True` for `NOON`, `NOPE`, `FADED` and `NOOOOS` |
| Doctests.DoctestQuineAsWritten | boggle.py:49-53 | the source as written also answers `False` for `QUINE`: even with reuse, no walk spells it |
| Doctests.CanonShapeAsWritten | boggle.py:43-47 | on any board with the first board's letters along C(0,1), A(0,2), N(0,3), O(1,3) and around them, the source as written does not find `CANON` |
| Doctests.DoctestCanonAsWritten | boggle.py:43-47 | the source as written also answers `False` for `CANON` on the first board |

## Left out

- The doctest driver under `__main__` (boggle.py:173-176) is left out. It is I/O: it runs the doctests and prints a message.
- `Search.FindWord` requires a non-empty word, and so do `Search.FindWordCorrect` and `AsWritten.FindAsWritten`. On the empty word the source raises `IndexError` at `word[0]` (boggle.py:148), because the length-1 base case does not catch it. Exceptions are not modelled.
- `Search.FindWord` requires a complete 5x5 board, and so does `AsWritten.FindAsWritten`. A board built from fewer than 25 tokens makes `find` index a missing cell and raise `IndexError`. `MakeBoard` itself models short input in full.
- The model does not follow the mutable list objects through their aliasing. Only the list the next tile is appended to is carried. The lists the inner calls extended are never read again: a failed call's caller rebinds its own name, and a successful call returns at once. So this loses no behaviour.
- Recursion depth, running time and Python object identity are not modelled.
- Arguments of other types than the source's (non-string board text, non-tuple positions) are not modelled.

## Findings

| source | as written | input that shows it | evidently intended | confidence | as-written member | corrected member |
|---|---|---|---|---|---|---|
| boggle.py:167 | after a failed branch `current_path = []`: the next origin tile starts from a path that forgets the tiles chosen by the enclosing calls | board `A B X X X / B X X X X / X X X X X / X X X X X / X X X X X`, word `ABA`: the branch through the `B` at (0,1) fails, the path is reset, and the branch through the `B` at (1,0) accepts the `A` at (0,0) again, so `find` returns `True` | `False`: the word needs the single `A` twice, which the rule at boggle.py:5-7 forbids; the failed branch should remove only its own tile | not executed | `AsWritten.ReusesTileOnLaterBranch` | `Search.FindWord` |
