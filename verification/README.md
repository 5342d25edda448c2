# Scrabble engines: a Dafny model

This project models the move-choosing core of a Java Scrabble AI repository.
The repository holds three engines. The game hands each engine a
`GateKeeper`: a read-only view of the board and the hand, a scorer and a
legality check. On every turn the engine answers with a `ScrabbleMove`: it
either plays a word or exchanges tiles.

- **`ScrabbleWinner`** (`src/scrabble/ScrabbleWinner.java`) is the anchor
  engine.
  - It loads the word list into a `DictGraph`. That graph is a root edge with
    one chain of letter edges per word.
  - It scans the board for anchor squares: the free square before a tile,
    across and down. On the first turn the centre is the only anchor.
  - From the eight start squares of each anchor, `buildWord` walks the graph.
    It follows board tiles and hand letters, and records a scored `Move` at
    every terminal edge.
  - `send` sorts the moves by descending score and plays the first legal one.
    With no legal move it exchanges all tiles.
- **`DeepBeige`** (`src/scrabble/DeepBeige.java`) remembers every tile it has
  seen on the board.
  - For each remembered tile, it asks a trie `WordFinder` for the words its
    hand spells together with that tile's letter.
  - It tries every other guess, across and down, from just before the tile.
  - Its `send` takes the `move` field of the last legal candidate. No
    candidate ever sets that field, so the engine always exchanges.
  - `findTwoTileMove` and `findOneTileMove` are exhaustive searches over pairs
    of hand tiles and single tiles, kept with the best score.
- **The root `ScrabbleWinner`** (`ScrabbleWinner.java`) is an earlier version
  of the `DeepBeige` engine. It finds its guesses by shuffling the letters at
  random (`permutate`) and keeping the dictionary prefixes of the shuffles.
  Its `betterFirstMove` scores its guesses but never adds them to the move
  list.
- **`PossiBoard`** (`src/scrabble/PossiBoard.java`) is a hypothetical board for
  lookahead. It has the premium layout, tile values, placement, connection
  and legality checks, and scoring: the main word, the cross words and the
  50-point bonus for seven tiles.
- **Two trie word finders**: `src/scrabble/WordFinder.java` and the root
  `WordFinder.java`.
  - The `src` finder handles blanks, which it spells as capitals, and an
    anchor letter that must be used. It writes the word so far into a
    100-square `char` buffer.
  - The root finder reads blanks as `'e'`.

## Modules

| file | module | models |
|---|---|---|
| `common.dfy` | `Common` | board geometry, `Location`, axes, the board grid, `ScrabbleMove`, the `GateKeeper` |
| `parse_hand.dfy` | `HandParsing` | `parseHand` and the blank filling of the root finder |
| `word_trie.dfy` | `WordTrie` | the `WordNode` trie shared by both finders, as an arena of nodes (`WordTree` class) |
| `word_finder.dfy` | `WordFinder` | the `src` finder's `getAllWords` search with its buffer, `seen` array and anchor |
| `legacy_word_finder.dfy` | `LegacyWordFinder` | the root finder's `getAllWords` |
| `dict_graph.dfy` | `EdgeGraph` | `DictGraph` and `Edge` |
| `possi_board.dfy` | `PossiBoard` | the `PossiBoard` class over a 15x15 `array2<char>` |
| `scrabble_winner.dfy` | `Winner` | the anchor engine |
| `winner_properties.dfy` | `WinnerProperties` | what a turn of the anchor engine finds and plays |
| `move_selection.dfy` | `MoveSelection` | `Move`/`compareTo`, the stable sort, the board scan, the guess loop, `send` of the guessing engines, `findTwoTileMove`, `findOneTileMove`, `factorial` |
| `deep_beige.dfy` | `Beige` | the `DeepBeige` engine |
| `legacy_winner.dfy` | `Legacy` | the root `ScrabbleWinner` engine and its `permutate` |

Each loop of the source is a `while` loop in a method. The method's
`ensures` ties its result, or the new state of its object, to a recursive
function over the inputs. The properties the source promises are then
proved about that function as lemmas.

The specification functions have no row of their own in the table below.
Each is covered by the row of the method whose `ensures` names it, and by
the rows of the lemmas that state its properties:

- `LegacyWordFinder.Words` (WordFinder.java:70-97): `Finder.GetAllWords`; `WordsAreStored`, `WordsDistinct`, `WordsFind`, `AvailableWords`, `AvailableWordsComplete`.
- `WordFinder.Found` (src/scrabble/WordFinder.java:77-151): `Finder.GetAllWords`; `FoundProperties`, `ReportedFromHand`.
- `WordTrie.Build` (src/scrabble/WordFinder.java:163-176): `WordTree.FromWords`; `BuildProperties`.
- `Winner.BuildMoves` (src/scrabble/ScrabbleWinner.java:230-295): `ScrabbleWinner.BuildWord`; `BuildMovesShape`, `BuildMovesSpell`.
- `Winner.Turn` and `Winner.TurnMoves` (src/scrabble/ScrabbleWinner.java:50-68): `ScrabbleWinner.ChooseMove`; `WinnerProperties.TurnMovesSearch`, `WinnerProperties.TurnOutcome`.
- `PossiBoard.TotalScore` (src/scrabble/PossiBoard.java:450-466): `PossiBoard.Score`; `ScoreFormula`.
- `PossiBoard.Legality` (src/scrabble/PossiBoard.java:469-495): `PossiBoard.VerifyLegality`.
- `MoveSelection.SortByScore` (src/scrabble/DeepBeige.java:134): `SortByScorePermutes`, `SortByScoreSorted`, `SortByScoreStable`.
- `MoveSelection.LastLegal` (src/scrabble/DeepBeige.java:138-147): `LastLegalNone`, `LastLegalSome`, `SendLastLegal`.
- `Beige.TileMoves` (src/scrabble/DeepBeige.java:75-100) and `Legacy.TileMoves` (ScrabbleWinner.java:84-109): `TileMovesAre`, `TileMovesUnplayed`.
- `Legacy.Target` (ScrabbleWinner.java:164-173): `PermutationTarget`; `TargetAllDistinct`, `TargetOneLetter`.
- `Legacy.Harvest` (ScrabbleWinner.java:207-233): `HarvestGuesses`, `Permutate`; `HarvestAre`, `HarvestSpelledFrom`.

## Model

| member | source | states |
|---|---|---|
| `HandParsing.NonBlanks` | src/scrabble/WordFinder.java:196-203 | the letters kept by the first loop of `parseHand` are no more than the hand and are never blanks |
| `HandParsing.ParsedHand` | src/scrabble/WordFinder.java:190-210 | the parsed hand is as long as the hand; filled with a lower-case letter it is all letters; filled with blanks it is still a hand of tiles |
| `HandParsing.ParsedHandRearranges` | src/scrabble/WordFinder.java:205-207 | `parseHand` only rearranges the hand (same multiset of tiles), and every blank comes after every letter |
| `HandParsing.ParsedHandReplacesBlanks` | WordFinder.java:128-139 | with a filler that is not a blank (the root finder's `'e'`), the parsed hand holds the filler as often as the hand held it and blanks together, no blank, and every other letter as often as the hand |
| `HandParsing.RemoveAt` | src/scrabble/WordFinder.java:121 | `subInput` while tile `i` is tried: the hand without tile `i`, one shorter, the others in order |
| `HandParsing.RemoveAtTiles` | src/scrabble/WordFinder.java:121 | `subInput` plus tile `i` is exactly the hand's multiset of tiles |
| `HandParsing.RemoveAtShift` | src/scrabble/WordFinder.java:121 | writing tile `i` into square `i` of "hand without tile `i`" gives "hand without tile `i+1`": the shift that readies the next iteration |
| `HandParsing.WithoutFirst` | src/scrabble/WordFinder.java:83-86 | the first `subInput` is a fresh array holding the hand without its first tile |
| `HandParsing.ParseHand` | src/scrabble/WordFinder.java:190-210 | `parseHand` returns a fresh array holding the parsed hand |
| `HandParsing.HandPlusTile` | src/scrabble/DeepBeige.java:79-83 | a hand plus a board letter is still a hand of tiles |
| `WordTrie.Letter` | src/scrabble/WordFinder.java:96-97 | slot `k` and letter `'a' + k` convert both ways (`c - 97`) |
| `WordTrie.ChildW` | src/scrabble/WordFinder.java:44-49 | `getChildW` leaves a child in the letter's slot, at a later node, and never removes nodes |
| `WordTrie.ChildWProperties` | src/scrabble/WordFinder.java:44-49 | `getChildW` keeps the trie valid and every existing node and word; a new child spells its parent's letters plus the letter |
| `WordTrie.AddRecValid` | src/scrabble/WordFinder.java:57-61 | `addWordRecursive` keeps the trie valid and keeps every node it had |
| `WordTrie.AddRecStores` | src/scrabble/WordFinder.java:57-61 | after `addWordRecursive`, the word's path leads to a node holding the word, and no other node's word changed |
| `WordTrie.InsertValid` | src/scrabble/WordFinder.java:51-55 | `addWord` keeps the trie valid and keeps every node it had |
| `WordTrie.InsertStores` | src/scrabble/WordFinder.java:51-55 | after `addWord` of a word of two letters or more, its path ends at a node holding it, and no other word changed |
| `WordTrie.OneLetterWordOnRoot` | src/scrabble/WordFinder.java:51-52 | a one-letter word is stored on the root itself, adds no node, and leaves `validWord` unchanged |
| `WordTrie.InsertPrefixesValid` | src/scrabble/WordFinder.java:63-68 | after `addWord` of a word of two letters or more, `validWord` holds for every prefix of the word |
| `WordTrie.InsertIdempotent` | src/scrabble/WordFinder.java:51-55 | adding a word twice gives the same trie as adding it once |
| `WordTrie.AddRecGrowth` | src/scrabble/WordFinder.java:57-61 | `addWordRecursive` creates exactly one node per letter beyond the part of the path that already exists |
| `WordTrie.InsertCreatesMissingNodes` | src/scrabble/WordFinder.java:51-55 | `addWord` creates exactly the missing nodes of the word's path |
| `WordTrie.InsertStoredWords` | src/scrabble/WordFinder.java:51-55 | after `addWord` the word is stored, and no other new word is |
| `WordTrie.FindLabel` | src/scrabble/WordFinder.java:63-68 | the path spelling `w` from the root ends at the node whose letters are `w` |
| `WordTrie.InsertKeepsPaths` | src/scrabble/WordFinder.java:51-61 | adding a word keeps every stored word of two letters or more at the end of its path |
| `WordTrie.InsertKeepsRoot` | src/scrabble/WordFinder.java:51-61 | adding a word of two letters or more leaves the root's one-letter word alone |
| `WordTrie.BuildValid` | src/scrabble/WordFinder.java:169-171 | loading a word list gives a valid trie whose stored words all come from the list |
| `WordTrie.BuildHoldsLong` | src/scrabble/WordFinder.java:169-171 | after loading, every listed word of two letters or more is at the end of its path |
| `WordTrie.BuildRootWord` | src/scrabble/WordFinder.java:169-171 | after loading, the root holds the last one-letter word of the list |
| `WordTrie.BuildProperties` | src/scrabble/WordFinder.java:169-171 | loading a word list gives a valid trie that holds exactly the listed words: every stored word is listed, every listed word of two letters or more is stored at the end of its path, and the root holds the last one-letter word |
| `WordTrie.WordTree.constructor` | src/scrabble/WordFinder.java:17 | a new `WordNode` is a root with no word and no children |
| `WordTrie.WordTree.FromWords` | src/scrabble/WordFinder.java:163-176 | the trie the constructor loads is the one `addWord` builds from the list, in file order |
| `WordTrie.WordTree.GetChildW` | src/scrabble/WordFinder.java:44-49 | the in-place `getChildW` does what `ChildW` states on the arena |
| `WordTrie.WordTree.AddWordRecursive` | src/scrabble/WordFinder.java:57-61 | the in-place `addWordRecursive` does what `AddRec` states on the arena |
| `WordTrie.WordTree.AddWord` | src/scrabble/WordFinder.java:51-55 | the in-place `addWord` does what `Insert` states on the arena |
| `WordFinder.Tiles` | src/scrabble/WordFinder.java:101-102 | the tiles a reported word uses (capitals are blanks) are one per letter |
| `WordFinder.FoundProperties` | src/scrabble/WordFinder.java:77-151 | every word `getAllWords` reports continues the buffer with letters laid from the hand's tiles, fewer than the hand holds; nothing is reported when the anchor has not been passed and no tile is the anchor |
| `WordFinder.ScanProperties` | src/scrabble/WordFinder.java:91-122 | the same for every word of the tile loop |
| `WordFinder.TileProperties` | src/scrabble/WordFinder.java:107-119 | the same for the words found through a letter tile |
| `WordFinder.WildProperties` | src/scrabble/WordFinder.java:94-106 | the same for the words found through a blank, tried as `'a'` to `'y'` |
| `WordFinder.BlankAsProperties` | src/scrabble/WordFinder.java:96-105 | the same for one letter a blank stands for |
| `WordFinder.LastWildReportsPath` | src/scrabble/WordFinder.java:128-138 | a blank as the last tile only reports the buffer so far, without the blank's letter |
| `WordFinder.ReportedFromHand` | src/scrabble/WordFinder.java:213-225 | `getAvailableWords` reports words shorter than the hand, laid with the hand's tiles; the anchored search reports nothing when no tile is the anchor |
| `WordFinder.SearchOfAt` | src/scrabble/WordFinder.java:139-146 | on a trie holding only "at", the hand "at" reports "a": the last tile is left out of the word |
| `WordFinder.LastTileOmitted` | src/scrabble/WordFinder.java:139-146 | the same with the trie built from ["at"] |
| `WordFinder.AnchorOmitted` | src/scrabble/WordFinder.java:139-146 | with anchor `'t'`, "a" is reported although the anchor letter is not in it |
| `WordFinder.TrieOfAt` | src/scrabble/WordFinder.java:51-61 | the trie of ["at"] has three nodes, with the word on the third |
| `WordFinder.TrieOfAb` | src/scrabble/WordFinder.java:51-61 | the trie of ["ab"] has three nodes, with the word on the third |
| `WordFinder.TrieOfAbAc` | src/scrabble/WordFinder.java:51-61 | the trie of ["ab", "ac"] shares the node of "a" |
| `WordFinder.LastWildOfAbAc` | src/scrabble/WordFinder.java:128-138 | a last blank under "a" reports "a" once per child holding a word |
| `WordFinder.WildOfAbAc` | src/scrabble/WordFinder.java:94-106 | under the root of that trie, the blank of the hand "a_" finds nothing, because the root's only child, `'a'`, was already tried |
| `WordFinder.SearchOfABlank` | src/scrabble/WordFinder.java:77-151 | the hand "a_" on the trie of "ab" and "ac" reports "a" twice |
| `WordFinder.LastBlankRepeats` | src/scrabble/WordFinder.java:128-138 | the same with the trie built from ["ab", "ac"] |
| `WordFinder.SettledAfterCall` | src/scrabble/WordFinder.java:149 | a recursive call that clears its own square leaves the caller's squares as they were |
| `WordFinder.Finder.constructor` | src/scrabble/WordFinder.java:163-176 | the finder's trie is the one built from the word list |
| `WordFinder.Finder.GetAllWords` | src/scrabble/WordFinder.java:77-151 | `getAllWords` outputs the words of the search function `Found`, and restores the buffer from `depth` on |
| `WordFinder.Finder.TryEachTile` | src/scrabble/WordFinder.java:82-122 | the tile loop outputs the words of `Scan`, shifting `subInput` as it goes |
| `WordFinder.Finder.TryLetter` | src/scrabble/WordFinder.java:107-119 | one letter tile: the words of `Tile`; its letter is marked seen |
| `WordFinder.Finder.TryEveryLetter` | src/scrabble/WordFinder.java:94-106 | one blank: the words of `Wild`; `'a'` to `'y'` are marked seen |
| `WordFinder.Finder.TryBlankAs` | src/scrabble/WordFinder.java:96-105 | one letter for a blank: the words of `BlankAs`; only that letter's seen flag changes |
| `WordFinder.Finder.LastBlank` | src/scrabble/WordFinder.java:128-138 | the last tile is a blank: the words of `LastWild` |
| `WordFinder.Finder.GetAvailableWords` | src/scrabble/WordFinder.java:213-215 | the unanchored search over the parsed hand; an empty hand fails (`None`) |
| `WordFinder.Finder.GetAnchoredWords` | src/scrabble/WordFinder.java:223-225 | the anchored search over the parsed hand; an empty hand fails (`None`) |
| `LegacyWordFinder.LastTile` | WordFinder.java:92-95 | the last tile reports at most one word |
| `LegacyWordFinder.WordsAreStored` | WordFinder.java:70-97 | every word reported is a word stored in the trie |
| `LegacyWordFinder.ExpandAreStored` | WordFinder.java:81-91 | the same for the tile loop |
| `LegacyWordFinder.WordsFromHand` | WordFinder.java:70-97 | every word reported below node `n` is spelled with the node's letters plus the input's, except the root's own word |
| `LegacyWordFinder.ExpandFromHand` | WordFinder.java:81-91 | the same for the tile loop |
| `LegacyWordFinder.WordsShape` | WordFinder.java:70-97 | a word reported below `n` is `n`'s own word or lies deeper below `n` |
| `LegacyWordFinder.ExpandShape` | WordFinder.java:81-91 | a word of the tile loop lies below `n` through a letter not yet seen |
| `LegacyWordFinder.AttemptShape` | WordFinder.java:82-89 | a word found through tile `i` lies below `n` through tile `i`'s letter |
| `LegacyWordFinder.ChildWord` | WordFinder.java:85-87 | a word below a child lies below the parent through the child's letter |
| `LegacyWordFinder.WordsDistinct` | WordFinder.java:70-97 | no word is reported twice |
| `LegacyWordFinder.ExpandDistinct` | WordFinder.java:78-91 | the `seen` array makes the tile loop report no word twice |
| `LegacyWordFinder.Finder.constructor` | WordFinder.java:103-122 | the finder's trie is the one built from the word list |
| `LegacyWordFinder.Finder.GetAllWords` | WordFinder.java:70-97 | `getAllWords` outputs the words of the search function `Words` |
| `LegacyWordFinder.Finder.TryEachTile` | WordFinder.java:72-91 | the tile loop outputs the words of `Expand`, shifting `subInput` as it goes |
| `LegacyWordFinder.Finder.TryTile` | WordFinder.java:82-90 | one tile: the words of `Attempt`; its letter is marked seen |
| `LegacyWordFinder.Finder.GetAvailableWords` | WordFinder.java:128-139 | the search over the hand with blanks read as `'e'`; an empty hand fails (`None`) |
| `LegacyWordFinder.AvailableWords` | WordFinder.java:128-139 | the guesses are distinct stored words, each spelled with the hand, a blank standing for an `'e'` (the root's one-letter word aside) |
| `LegacyWordFinder.ExpandHas` | WordFinder.java:81-91 | a word that trying one tile reports is reported by the loop over the tiles that started before it |
| `LegacyWordFinder.TakeTile` | WordFinder.java:85-90 | going down by the tile of the word's next letter leaves tiles that still spell the rest of the word |
| `LegacyWordFinder.OneTileLeft` | WordFinder.java:92-95 | with one tile left, only a word whose last letter is that tile can still be found |
| `LegacyWordFinder.FirstSlotFresh` | WordFinder.java:81-84 | the first tile of a letter is never skipped as already tried |
| `LegacyWordFinder.WordsFind` | WordFinder.java:70-97 | every word whose remaining letters are among the input tiles and whose path exists below the node is reported |
| `LegacyWordFinder.AvailableWordsComplete` | WordFinder.java:128-139 | every word of the list of two letters or more that the hand can spell, a blank standing for an `'e'`, is guessed |
| `LegacyWordFinder.LastTileReportsWord` | WordFinder.java:92-95 | unlike the `src` finder, the hand "at" on the trie of ["at"] reports "at" |
| `EdgeGraph.FirstOut` | src/scrabble/ScrabbleWinner.java:528-533 | an edge found is an out-edge of the start that carries the letter |
| `EdgeGraph.FirstOutNone` | src/scrabble/ScrabbleWinner.java:528-533 | `getEdge` gives null exactly when no out-edge carries the letter |
| `EdgeGraph.FirstOutSome` | src/scrabble/ScrabbleWinner.java:528-533 | `getEdge` gives the first out-edge that carries the letter |
| `EdgeGraph.ChainEdge` | src/scrabble/ScrabbleWinner.java:505-520 | edge `k` of a word's chain carries letter `k`, leads only to the next edge, and only the last is terminal |
| `EdgeGraph.ChainLeadsOnlyOn` | src/scrabble/ScrabbleWinner.java:505-520 | a walk from inside a chain to a terminal edge spells only the rest of that chain's word |
| `EdgeGraph.ChainLeadsOn` | src/scrabble/ScrabbleWinner.java:505-520 | from edge `j` of a chain, the rest of the word leads to its last edge |
| `EdgeGraph.ChainLeadsFromRoot` | src/scrabble/ScrabbleWinner.java:505-520 | a chain hanging off the root spells its word from the root to a terminal edge |
| `EdgeGraph.WordLeadsFromRoot` | src/scrabble/ScrabbleWinner.java:489-498 | every word of the list leads from the root to a terminal edge |
| `EdgeGraph.LeadsFromRootIsWord` | src/scrabble/ScrabbleWinner.java:489-498 | every walk from the root to a terminal edge spells a word of the list |
| `EdgeGraph.ChainOf` | src/scrabble/ScrabbleWinner.java:505-520 | the chain `AddWord` appends: one edge per letter, each leading to the next, the last terminal |
| `EdgeGraph.GraphOf` | src/scrabble/ScrabbleWinner.java:489-498 | the graph of a list has at least its root |
| `EdgeGraph.GraphOfNext` | src/scrabble/ScrabbleWinner.java:495-497 | the graph of one more word is the graph so far with that word's chain added |
| `EdgeGraph.DictGraph.constructor` | src/scrabble/ScrabbleWinner.java:489-498 | the constructor's edge list is the graph of the word list, and it holds the list |
| `EdgeGraph.DictGraph.AddEdge` | src/scrabble/ScrabbleWinner.java:542-547 | `addEdge` appends a new edge and adds it to the start edge's out list; nothing else changes |
| `EdgeGraph.DictGraph.AddWord` | src/scrabble/ScrabbleWinner.java:505-520 | `AddWord` appends the word's chain, adds its first edge to the root, keeps every other edge and keeps the graph holding the words so far plus this one |
| `EdgeGraph.DictGraph.GetEdge` | src/scrabble/ScrabbleWinner.java:528-533 | `getEdge` returns the first out-edge with the letter, or null (`None`) |
| `EdgeGraph.AddedWordHolds` | src/scrabble/ScrabbleWinner.java:505-520 | appending a word's chain keeps the graph holding all words, the new one included |
| `EdgeGraph.AddedWordIs` | src/scrabble/ScrabbleWinner.java:505-520 | the edges after `AddWord` are determined: the old ones with the chain added |
| `EdgeGraph.WithWordShape` | src/scrabble/ScrabbleWinner.java:505-520 | adding a word adds its chain after the old edges and one root out-edge to it |
| `EdgeGraph.GraphOfHolds` | src/scrabble/ScrabbleWinner.java:489-498 | the graph of a list has a root with one out-edge per word, in list order, each leading into that word's chain of edges |
| `PossiBoard.LayoutShape` | src/scrabble/PossiBoard.java:88-103 | the layout is 15x15, has the double-word square at the centre, and holds no letter |
| `PossiBoard.TileValuesCoverTiles` | src/scrabble/PossiBoard.java:36-67 | every lower-case letter is worth 1 to 10; capitals (blanks) and `'_'` are worth 0; nothing else has a value |
| `PossiBoard.PlacedSquares` | src/scrabble/PossiBoard.java:270-277 | `placeWord` writes each non-space letter on its square and leaves every other square as it was |
| `PossiBoard.PlaceableInBounds` | src/scrabble/PossiBoard.java:227-251 | a word that can be placed lies on the board from its first to its last letter |
| `PossiBoard.PlacedEnds` | src/scrabble/PossiBoard.java:227-251 | after placing a placeable word, the squares before and after it are free |
| `PossiBoard.RunLength` | src/scrabble/PossiBoard.java:308-313 | the number of tiles directly before a square: all occupied, and the one before them free |
| `PossiBoard.RunFromStart` | src/scrabble/PossiBoard.java:308-313 | `findStartOfWord` steps back over exactly the tiles before the square, so walking forward from it reaches the square |
| `PossiBoard.FirstMoveMustCoverCenter` | src/scrabble/PossiBoard.java:283-303 | on a board with no tiles, a word connects exactly when it covers the centre |
| `PossiBoard.LegalPlayLaysMainWord` | src/scrabble/PossiBoard.java:469-495 | a legal play fits the board; its main word, lower-cased, is in the dictionary; it occupies every square of the word; and the squares before and after it stay free |
| `PossiBoard.ScoredWordsFit` | src/scrabble/PossiBoard.java:424-447 | a main word the board can score lies on the board |
| `PossiBoard.MainTallyFormula` | src/scrabble/PossiBoard.java:427-445 | the main-word loop computes the letter points times the product of the word multipliers |
| `PossiBoard.MainScoreFormula` | src/scrabble/PossiBoard.java:424-447 | the main word scores the sum of its letter points times its word multiplier |
| `PossiBoard.ScoreRestFormula` | src/scrabble/PossiBoard.java:455-464 | the cross-word loop adds every cross-word score, and 50 when seven tiles were played |
| `PossiBoard.ScoreFormula` | src/scrabble/PossiBoard.java:450-466 | `score` fails exactly when the main word or a cross word cannot be scored; otherwise it is main word plus cross words plus the bonus |
| `PossiBoard.CrossScoreFormula` | src/scrabble/PossiBoard.java:389-421 | where the early exit does not apply, a cross word scores its face value plus the new tile's letter premium, times the word premium of its square |
| `PossiBoard.SingleTileBeforeScoresZero` | src/scrabble/PossiBoard.java:392-396 | a new tile with exactly one tile before it forms a cross word of two letters or more, yet scores 0: the early exit tests the square after the start of the word |
| `PossiBoard.LoneTileAtEdgeScores` | src/scrabble/PossiBoard.java:393-420 | a lone new tile on the last square scores its own value with premiums, though it forms no cross word |
| `PossiBoard.NoCrossWordScoresZero` | src/scrabble/PossiBoard.java:393-396 | a lone new tile with free squares on both sides scores 0 |
| `PossiBoard.PossiBoard.constructor` | src/scrabble/PossiBoard.java:110-117 | a new board is a fresh copy of the layout with value 0 |
| `PossiBoard.PossiBoard.PlaceWord` | src/scrabble/PossiBoard.java:270-277 | `placeWord` changes the squares to the placed grid |
| `PossiBoard.PossiBoard.CanBePlacedOnBoard` | src/scrabble/PossiBoard.java:227-251 | the answer is the placement rule `Placeable` |
| `PossiBoard.PossiBoard.WouldBeConnected` | src/scrabble/PossiBoard.java:283-303 | the answer is the connection rule `Connected` |
| `PossiBoard.PossiBoard.FindStartOfWord` | src/scrabble/PossiBoard.java:308-313 | the start of the word through a square, `StartOfWord` |
| `PossiBoard.PossiBoard.IsValidCrossWord` | src/scrabble/PossiBoard.java:321-343 | the answer is the cross-word rule `CrossWordValid` |
| `PossiBoard.PossiBoard.IsValidMainWord` | src/scrabble/PossiBoard.java:348-362 | the answer is the main-word rule `MainWordValid` |
| `PossiBoard.PossiBoard.WouldCreateOnlyLegalWords` | src/scrabble/PossiBoard.java:370-382 | the answer is `OnlyLegalWords`: the main word and every cross word are in the dictionary |
| `PossiBoard.PossiBoard.CrossWordsValid` | src/scrabble/PossiBoard.java:373-380 | the loop answers whether every letter's cross word is valid |
| `PossiBoard.PossiBoard.VerifyLegality` | src/scrabble/PossiBoard.java:469-495 | the verdict `Legality`: too short, no new tile, placement and connection, then the words |
| `PossiBoard.PossiBoard.Premium` | src/scrabble/PossiBoard.java:433-441 | a letter square multiplies the tile's points, a word square multiplies the word by 2 or 3, any other square by 1 |
| `PossiBoard.PossiBoard.ScoreCrossWord` | src/scrabble/PossiBoard.java:389-421 | the cross-word score `CrossScore`; a missing tile value fails (`None`) |
| `PossiBoard.PossiBoard.ScoreMainWord` | src/scrabble/PossiBoard.java:424-447 | the main-word score `MainScore`; a missing value or a square off the board fails |
| `PossiBoard.PossiBoard.Score` | src/scrabble/PossiBoard.java:450-466 | the total `TotalScore` |
| `PossiBoard.PossiBoard.AddCrossWords` | src/scrabble/PossiBoard.java:453-465 | the cross-word loop of `score` |
| `PossiBoard.PossiBoard.Play` | src/scrabble/PossiBoard.java:168-172 | `play` records the score in `tmpScore` and places the word; a failure changes nothing |
| `PossiBoard.PossiBoard.Exchange` | src/scrabble/PossiBoard.java:179-182 | an exchange scores 0 and leaves the board alone |
| `PossiBoard.PossiBoard.PlayMove` | src/scrabble/PossiBoard.java:168-182 | a move changes the grid to `AfterMove` and `tmpScore` to the move's points; a play that cannot be scored keeps the old `tmpScore` |
| `PossiBoard.PossiBoard.Copy` | src/scrabble/PossiBoard.java:123-143 | the copy is a fresh board after the move, whose value adds or subtracts the move's points |
| `PossiBoard.PossiBoard.FromLayout` | src/scrabble/PossiBoard.java:145-162 | a board read from a layout array, after the move, valued at plus or minus the move's points |
| `Winner.EdgeMovesOnBoard` | src/scrabble/ScrabbleWinner.java:272-293 | one out-edge records a move at a terminal edge (with a board tile used, or at the centre) and goes on, if the hand holds its letter; otherwise nothing |
| `Winner.RecordedLonger` | src/scrabble/ScrabbleWinner.java:253-291 | a move recorded from a longer subword is recorded from a shorter one |
| `Winner.BuildMovesShape` | src/scrabble/ScrabbleWinner.java:230-295 | every move `buildWord` records starts at the start square with the board's score and no play, extends the subword with letters that are spaces (board tiles) or in the hand, holds a board tile unless it starts at the centre, and ends before the board's edge |
| `Winner.OutMovesShape` | src/scrabble/ScrabbleWinner.java:272-293 | the same for the out-edge loop |
| `Winner.Spelled` | src/scrabble/ScrabbleWinner.java:250-251 | a move's word with board letters read into its spaces has the word's length |
| `Winner.SpelledFrom` | src/scrabble/ScrabbleWinner.java:250-251 | reading a word from square `i` reads a board tile for a space and the letter otherwise |
| `Winner.BuildMovesSpell` | src/scrabble/ScrabbleWinner.java:230-295 | every move recorded extends the subword, and the rest of it, board letters read in, leads to a terminal edge |
| `Winner.StepSpellsOne` | src/scrabble/ScrabbleWinner.java:276-280 | a terminal out-edge carrying the next letter ends the word |
| `Winner.StepSpellsRest` | src/scrabble/ScrabbleWinner.java:272-292 | a move recorded through an out-edge leads on through the out list |
| `Winner.StepSpellsWord` | src/scrabble/ScrabbleWinner.java:272-292 | the same for one word |
| `Winner.TileSpell` | src/scrabble/ScrabbleWinner.java:241-269 | the same for a board tile followed through `getEdge` |
| `Winner.OutMovesSpell` | src/scrabble/ScrabbleWinner.java:272-293 | the same for the whole out-edge loop |
| `Winner.FindBeforeNext` | src/scrabble/ScrabbleWinner.java:191-217 | one more offset of `findWords`: skipped off the board, otherwise its start square's moves appended (or a crash) |
| `Winner.FindBeforeFails` | src/scrabble/ScrabbleWinner.java:191-217 | once a start square crashes, `findWords` does not recover |
| `Winner.AnchorMovesFail` | src/scrabble/ScrabbleWinner.java:137-140 | once an anchor's search crashes, the anchor loop does not recover |
| `Winner.ScrabbleWinner.constructor` | src/scrabble/ScrabbleWinner.java:18-37 | the engine holds the word list and the dictionary graph built from it |
| `Winner.ScrabbleWinner.Start` | src/scrabble/ScrabbleWinner.java:71-76 | `Start` loads a fresh dictionary graph of the word list |
| `Winner.ScrabbleWinner.BuildWord` | src/scrabble/ScrabbleWinner.java:230-295 | `buildWord` appends the moves of `BuildMoves` |
| `Winner.ScrabbleWinner.FollowTile` | src/scrabble/ScrabbleWinner.java:241-269 | the board-tile branch appends the same moves |
| `Winner.ScrabbleWinner.TryOutEdges` | src/scrabble/ScrabbleWinner.java:271-293 | the out-edge branch appends the same moves |
| `Winner.ScrabbleWinner.TryEdge` | src/scrabble/ScrabbleWinner.java:273-292 | one out-edge appends the moves of `EdgeMoves` |
| `Winner.ScrabbleWinner.TryStart` | src/scrabble/ScrabbleWinner.java:200-216 | one start square appends its moves, or crashes (`false`) when its tile begins no word |
| `Winner.ScrabbleWinner.FindWords` | src/scrabble/ScrabbleWinner.java:189-218 | `findWords` appends the moves of its eight start squares, or crashes |
| `Winner.ScrabbleWinner.FindAnchors` | src/scrabble/ScrabbleWinner.java:94-132 | the scan pushes the anchors of the board, row by row, onto the three stacks |
| `Winner.ScrabbleWinner.VisitAt` | src/scrabble/ScrabbleWinner.java:96-131 | one square of the scan |
| `Winner.ScrabbleWinner.Send` | src/scrabble/ScrabbleWinner.java:303-331 | `send` sorts the moves and returns `SendOutcome`: the first legal move of the sorted list, or an exchange |
| `Winner.ScrabbleWinner.WordsAtAnchors` | src/scrabble/ScrabbleWinner.java:136-140 | the anchor loop appends every anchor's moves, or crashes |
| `Winner.ScrabbleWinner.BetterMove` | src/scrabble/ScrabbleWinner.java:82-170 | `betterMove` scans the anchors, searches them and sends the sorted moves |
| `Winner.ScrabbleWinner.BetterFirstMove` | src/scrabble/ScrabbleWinner.java:177-182 | `betterFirstMove` searches down and across from the centre and sends |
| `Winner.ScrabbleWinner.ChooseMove` | src/scrabble/ScrabbleWinner.java:50-68 | `chooseMove` clears the stacks, takes the hand, and returns the turn's result `Turn` |
| `WinnerProperties.FirstLegalNone` | src/scrabble/ScrabbleWinner.java:312-326 | `send`'s loop finds no legal move exactly when none is legal |
| `WinnerProperties.FirstLegalSome` | src/scrabble/ScrabbleWinner.java:312-326 | the move it finds is legal and no earlier move is |
| `WinnerProperties.FirstLegalWithScore` | src/scrabble/ScrabbleWinner.java:312-326 | the move found is also first among the legal moves of its own score |
| `WinnerProperties.FirstLegalIsTop` | src/scrabble/ScrabbleWinner.java:307-326 | in a list sorted by descending score, the first legal move has the top legal score |
| `WinnerProperties.SendPicksBest` | src/scrabble/ScrabbleWinner.java:303-331 | `send` exchanges all tiles exactly when no move is legal; otherwise it plays a legal move of the top legal score, the first one of that score in list order |
| `WinnerProperties.VisitSquareAnchors` | src/scrabble/ScrabbleWinner.java:96-131 | one square of the scan adds exactly the anchors of that square's tile |
| `WinnerProperties.AnchorRowAnchors` | src/scrabble/ScrabbleWinner.java:96-131 | a row of the scan adds the anchors of that row's tiles |
| `WinnerProperties.AnchorRowsAnchors` | src/scrabble/ScrabbleWinner.java:94-132 | the rows of the scan add the anchors of their tiles |
| `WinnerProperties.ScanAnchorsAre` | src/scrabble/ScrabbleWinner.java:94-132 | the scan finds exactly the anchor squares: the free square before a tile, across or down |
| `WinnerProperties.PushNewNoDup` | src/scrabble/ScrabbleWinner.java:104-126 | pushing a row or column only when it is new keeps the stack free of repeats |
| `WinnerProperties.PushVertical` | src/scrabble/ScrabbleWinner.java:104-114 | pushing a vertical anchor keeps the stacks consistent |
| `WinnerProperties.PushHorizontal` | src/scrabble/ScrabbleWinner.java:116-126 | pushing a horizontal anchor keeps the stacks consistent |
| `WinnerProperties.VisitSquareConsistent` | src/scrabble/ScrabbleWinner.java:96-131 | one square of the scan keeps the stacks consistent |
| `WinnerProperties.AnchorRowConsistent` | src/scrabble/ScrabbleWinner.java:96-131 | one row of the scan keeps them consistent |
| `WinnerProperties.AnchorRowsConsistent` | src/scrabble/ScrabbleWinner.java:94-132 | the whole scan keeps them consistent |
| `WinnerProperties.ScanAnchorsStacks` | src/scrabble/ScrabbleWinner.java:94-132 | after the scan, `rows` and `cols` hold, without repeats, the rows and columns of the horizontal and vertical anchors |
| `WinnerProperties.EndsIsWord` | src/scrabble/ScrabbleWinner.java:489-498 | a walk from the root to a terminal edge spells a word of the list |
| `WinnerProperties.TileStartAre` | src/scrabble/ScrabbleWinner.java:200-207 | from a start square holding a tile, every move recorded is a candidate |
| `WinnerProperties.TileStartMove` | src/scrabble/ScrabbleWinner.java:200-207 | the same for one move |
| `WinnerProperties.FreeStartAre` | src/scrabble/ScrabbleWinner.java:208-215 | from a free start square, every move recorded is a candidate |
| `WinnerProperties.StartMovesAre` | src/scrabble/ScrabbleWinner.java:200-216 | every move recorded from a start square is a candidate: a dictionary word placed at its start, with board tiles under its spaces and hand letters elsewhere |
| `WinnerProperties.FindBeforeAre` | src/scrabble/ScrabbleWinner.java:191-217 | every move of the first offsets of `findWords` is a candidate of one of their start squares |
| `WinnerProperties.FindMovesAre` | src/scrabble/ScrabbleWinner.java:189-218 | every move `findWords` records is a candidate of one of its start squares |
| `WinnerProperties.RootEdgeFor` | src/scrabble/ScrabbleWinner.java:528-533 | the root has an out-edge for a letter exactly when a word of the list begins with it |
| `WinnerProperties.StartMovesFail` | src/scrabble/ScrabbleWinner.java:200-207 | a start square crashes exactly when its tile begins no word |
| `WinnerProperties.FindBeforeFail` | src/scrabble/ScrabbleWinner.java:191-217 | the first offsets crash exactly when one of their start squares is dead |
| `WinnerProperties.FindMovesFail` | src/scrabble/ScrabbleWinner.java:189-218 | `findWords` crashes exactly when one of its start squares is dead |
| `WinnerProperties.AnchorMovesAre` | src/scrabble/ScrabbleWinner.java:136-140 | every move of the anchor loop is a candidate of a start square of some anchor |
| `WinnerProperties.AnchorMovesFailIff` | src/scrabble/ScrabbleWinner.java:136-140 | the anchor loop crashes exactly when some anchor has a dead start square |
| `WinnerProperties.FirstMovesAsAnchors` | src/scrabble/ScrabbleWinner.java:177-182 | the first-turn search is the anchor search at the centre, down then across |
| `WinnerProperties.TurnMovesSearch` | src/scrabble/ScrabbleWinner.java:50-68 | a turn searches the centre on the first turn and the anchor squares otherwise |
| `WinnerProperties.TurnOutcome` | src/scrabble/ScrabbleWinner.java:50-68 | a turn crashes exactly when a searched start square is dead; it exchanges exactly when no candidate is legal; otherwise it plays a legal candidate of the top legal score, a dictionary word |
| `MoveSelection.CompareToOrder` | src/scrabble/ScrabbleWinner.java:465-475 | `compareTo` is antisymmetric, transitive and consistent on ties, and puts higher scores first |
| `MoveSelection.InsertAdds` | src/scrabble/DeepBeige.java:134 | inserting a move into the sorted list adds it and nothing else |
| `MoveSelection.InsertSorted` | src/scrabble/DeepBeige.java:134 | inserting keeps the list in descending score order |
| `MoveSelection.SortByScorePermutes` | src/scrabble/DeepBeige.java:134 | the sort rearranges the moves |
| `MoveSelection.SortByScoreSorted` | src/scrabble/DeepBeige.java:134 | the sorted list runs from the top score down |
| `MoveSelection.InsertKeepsTies` | src/scrabble/DeepBeige.java:134 | inserting puts a move after the moves of its score |
| `MoveSelection.SortByScoreStable` | src/scrabble/DeepBeige.java:134 | the sort is stable: the moves of each score keep their order |
| `MoveSelection.LastLegalNone` | src/scrabble/DeepBeige.java:138-147 | the loop of `send` finds a legal move exactly when some move is legal |
| `MoveSelection.LastLegalSome` | src/scrabble/DeepBeige.java:138-147 | the move it keeps is legal and no later move is |
| `MoveSelection.SendLastLegal` | src/scrabble/DeepBeige.java:136-151 | `send` after the sort returns the last legal move's `move` field, or an exchange; with no field set, it always exchanges |
| `MoveSelection.RowTilesAre` | src/scrabble/DeepBeige.java:40-44 | one row of the scan pushes exactly the row's letter tiles, left to right |
| `MoveSelection.TilesAboveAre` | src/scrabble/DeepBeige.java:39-45 | the first rows of the scan push exactly their letter tiles, in reading order |
| `MoveSelection.BoardTilesAre` | src/scrabble/DeepBeige.java:39-45 | the scan pushes exactly the board's letter tiles, in reading order |
| `MoveSelection.ScanRowPushes` | src/scrabble/DeepBeige.java:40-44 | the column loop pushes the row's tiles onto the stack |
| `MoveSelection.ScanRowsPushes` | src/scrabble/DeepBeige.java:39-45 | the row loop pushes the tiles of the rows onto the stack |
| `MoveSelection.ScanBoard` | src/scrabble/DeepBeige.java:39-45 | the scan leaves the stack holding the old tiles and then the board's tiles |
| `MoveSelection.EveryOtherAre` | src/scrabble/DeepBeige.java:88-98 | the guess loop, advanced twice per pass, tries guesses `0, 2, 4, ...`: half of them, rounded up |
| `MoveSelection.GuessMovesAre` | src/scrabble/DeepBeige.java:88-98 | the candidates are an across and a down move for every tried guess, in order |
| `MoveSelection.AddGuessMoves` | src/scrabble/DeepBeige.java:88-98 | the guess loop appends the candidates of the tried guesses |
| `MoveSelection.GuessMovesTried` | src/scrabble/DeepBeige.java:88-98 | a move is a candidate exactly when it is a tried guess, placed across before the tile or down above it |
| `MoveSelection.TriedIsGuess` | src/scrabble/DeepBeige.java:88-98 | every candidate's word is a guess |
| `MoveSelection.GuessMovesUnplayed` | src/scrabble/DeepBeige.java:91-92 | no candidate carries a play |
| `MoveSelection.SendExchanges` | src/scrabble/DeepBeige.java:131-152 | sorting keeps the moves unplayed, so `send` exchanges all tiles |
| `MoveSelection.RunAppend` | src/scrabble/DeepBeige.java:184-187 | the best-so-far scan over two lists is the scan over the first, continued over the second |
| `MoveSelection.RunSnoc` | src/scrabble/DeepBeige.java:184-187 | scanning one more candidate improves the best so far with it |
| `MoveSelection.RunKeepsBest` | src/scrabble/DeepBeige.java:184-187 | the scan never lowers the best score, is at least the score of every legal candidate, and when it rises keeps the first legal candidate of the top score |
| `MoveSelection.ChoiceIffScored` | src/scrabble/DeepBeige.java:194 | a choice is made exactly when the best score rose above -1 |
| `MoveSelection.OpeningChoice` | src/scrabble/DeepBeige.java:194-197 | the search exchanges all tiles exactly when no legal candidate scores above -1; otherwise it plays the first legal candidate of the top legal score |
| `MoveSelection.PairsLedByAre` | src/scrabble/DeepBeige.java:170-191 | the inner loop tries every ordered pair led by tile `i` with a different second tile |
| `MoveSelection.PairsBeforeAre` | src/scrabble/DeepBeige.java:169-193 | the first `n` rows try every such pair led by one of the first `n` tiles |
| `MoveSelection.TwoTileCandidatesAre` | src/scrabble/DeepBeige.java:169-193 | `findTwoTileMove` tries every pair of distinct hand tiles at the centre, across, blanks read as `'E'` |
| `MoveSelection.PairsLedByRunIsRun` | src/scrabble/DeepBeige.java:170-191 | the inner loop's fold is the scan over the pairs led by tile `i` |
| `MoveSelection.RowsRunIsRun` | src/scrabble/DeepBeige.java:169-193 | the outer loop's fold is the scan over all pairs of the first rows |
| `MoveSelection.DecideAtCentre` | src/scrabble/DeepBeige.java:194-197 | with the best word kept, the result plays it at the centre across, or exchanges when none was kept |
| `MoveSelection.TryRow` | src/scrabble/DeepBeige.java:170-192 | one pass of the inner loop continues the scan over the pairs led by tile `i` |
| `MoveSelection.TryPair` | src/scrabble/DeepBeige.java:171-191 | one pair is tried unless both indices are the same tile |
| `MoveSelection.SearchPairs` | src/scrabble/DeepBeige.java:169-193 | the nested loops compute the scan over all two-tile candidates |
| `MoveSelection.FindTwoTileMove` | src/scrabble/DeepBeige.java:165-198 | `findTwoTileMove` returns the decision of the scan over all two-tile candidates |
| `MoveSelection.PlacesOfAre` | src/scrabble/DeepBeige.java:213-228 | the square and direction loops try the word at every square of the board, across and down |
| `MoveSelection.WordsOfAre` | src/scrabble/DeepBeige.java:212 | the word loop tries the letter followed by a space (a board tile), then a space followed by the letter |
| `MoveSelection.TilesOfAre` | src/scrabble/DeepBeige.java:208-230 | the tile loop tries both words of every tile of the hand |
| `MoveSelection.OneTileCandidatesAre` | src/scrabble/DeepBeige.java:204-231 | `findOneTileMove` tries, for every hand tile (a blank as `'E'`), both words at every square and direction |
| `MoveSelection.PlacesRunIsRun` | src/scrabble/DeepBeige.java:213-228 | the square loops' fold is the scan over the word's placements |
| `MoveSelection.WordsRunIsRun` | src/scrabble/DeepBeige.java:212-229 | the word loop's fold is the scan over both words' placements |
| `MoveSelection.TilesRunIsRun` | src/scrabble/DeepBeige.java:208-230 | the tile loop's fold is the scan over every tile's candidates |
| `MoveSelection.TrySquare` | src/scrabble/DeepBeige.java:215-227 | one square continues the scan across and then down |
| `MoveSelection.TryWord` | src/scrabble/DeepBeige.java:213-228 | the square loops for one word continue the scan over its placements |
| `MoveSelection.FindOneTileMove` | src/scrabble/DeepBeige.java:204-236 | `findOneTileMove` returns the decision of the scan over all one-tile candidates |
| `MoveSelection.Factorial` | src/scrabble/DeepBeige.java:238-243 | `factorial` is at least 1 |
| `MoveSelection.FactorialFitsInt` | src/scrabble/DeepBeige.java:238-243 | up to 12 the factorial stays below 2^31, so the Java `int` result is exact |
| `MoveSelection.FactorialGrows` | src/scrabble/DeepBeige.java:238-243 | the factorial never decreases |
| `Legacy.DistinctAtMost` | ScrabbleWinner.java:167-171 | the set of distinct letters is no larger than the letters, so `n - d` is a valid factorial argument |
| `Legacy.PermutationTarget` | ScrabbleWinner.java:164-173 | `maxPermutations` is `n! / (2 (n - d)!)` for `n` letters of which `d` are distinct |
| `Legacy.TargetAllDistinct` | ScrabbleWinner.java:173 | with no repeated letter the target is half of all orderings |
| `Legacy.TargetOneLetter` | ScrabbleWinner.java:173 | with a single letter repeated `n` times the target is `n / 2` |
| `Legacy.FirstOccurrencesAre` | ScrabbleWinner.java:216-220 | `uniqueWords` keeps each guess once in `tempGuesses`, and every guess found is kept |
| `Legacy.FirstOccurrencesOrdered` | ScrabbleWinner.java:216-220 | the kept guesses are in the order they were first found |
| `Legacy.DictionaryPrefixesAre` | ScrabbleWinner.java:213-223 | the inner loop finds exactly the dictionary words among a shuffle's prefixes of lengths 2 to `length` |
| `Legacy.PoppedPrefixesAre` | ScrabbleWinner.java:210-224 | the guesses from the popped shuffles are exactly their dictionary prefixes |
| `Legacy.HarvestAre` | ScrabbleWinner.java:207-233 | `permutate` returns every dictionary prefix (2 to `n` letters) of a shuffle once, and nothing else |
| `Legacy.HarvestSpelledFrom` | ScrabbleWinner.java:207-233 | when every shuffle is a rearrangement of the letters, every guess is spelled with the letters |
| `Legacy.HarvestGuesses` | ScrabbleWinner.java:207-233 | the harvest and copy loops compute `Harvest` |
| `Legacy.HarvestWord` | ScrabbleWinner.java:211-223 | one popped shuffle adds its new dictionary prefixes, in length order |
| `Legacy.Permutate` | ScrabbleWinner.java:161-234 | `permutate`, given the shuffles its random loop pushed, returns `Harvest` of them |
| `Legacy.ShufflesAt` | ScrabbleWinner.java:186-203 | what the random loop pushes: distinct rearrangements of the letters |
| `Legacy.TileMovesAre` | ScrabbleWinner.java:84-109 | a move is a candidate of `betterMove` exactly when it is a tried guess of some remembered tile, before that tile |
| `Legacy.TileCandidateWord` | ScrabbleWinner.java:88-107 | a candidate of one tile is a dictionary word of 2 to hand-size + 1 letters, spelled with the hand and the tile |
| `Legacy.CandidateWords` | ScrabbleWinner.java:84-109 | the same for every candidate of `betterMove` |
| `Legacy.TileMovesUnplayed` | ScrabbleWinner.java:84-109 | no candidate carries a play |
| `Legacy.ListCandidates` | ScrabbleWinner.java:84-109 | the tile loop builds the candidates `TileMoves` |
| `Legacy.ScrabbleWinner.constructor` | ScrabbleWinner.java:18-29 | the engine starts with no tiles, no dictionary and no move list |
| `Legacy.ScrabbleWinner.ChooseMove` | ScrabbleWinner.java:36-56 | `chooseMove` scans the board and plays the first or a later turn; with no move list on the first turn it crashes (`None`); it always exchanges |
| `Legacy.ScrabbleWinner.Start` | ScrabbleWinner.java:58-65 | `Start` empties the tiles and loads the dictionary set |
| `Legacy.ScrabbleWinner.BetterMove` | ScrabbleWinner.java:70-111 | `betterMove` starts the engine if needed, lists the candidates of every tile, and sends |
| `Legacy.ScrabbleWinner.BetterFirstMove` | ScrabbleWinner.java:116-136 | `betterFirstMove` leaves the move list untouched and sends the old list, crashing without one |
| `Legacy.ScrabbleWinner.Send` | ScrabbleWinner.java:138-159 | `send` sorts the old list and exchanges all tiles; with no list it crashes |
| `Beige.TileMovesAre` | src/scrabble/DeepBeige.java:75-100 | a move is a candidate of `betterMove` exactly when it is a tried guess of some remembered tile |
| `Beige.TileGuessesStored` | src/scrabble/DeepBeige.java:154-162 | every guess of `permutate` is a word stored in the trie |
| `Beige.CandidateWordsStored` | src/scrabble/DeepBeige.java:75-100 | every candidate is placed with a stored word of the trie |
| `Beige.TileMovesUnplayed` | src/scrabble/DeepBeige.java:75-100 | no candidate carries a play |
| `Beige.DeepBeige.constructor` | src/scrabble/DeepBeige.java:54-58 | a new engine has no tiles, no moves and the trie of the word list |
| `Beige.DeepBeige.ChooseMove` | src/scrabble/DeepBeige.java:33-52 | `chooseMove` pushes the board's tiles onto the remembered ones; it searches from the centre on the first turn and from the tiles otherwise; an empty hand on the first turn crashes (`None`); otherwise it exchanges all tiles |
| `Beige.DeepBeige.BetterMove` | src/scrabble/DeepBeige.java:63-102 | `betterMove` lists the candidates of every remembered tile, sorts them and exchanges |
| `Beige.DeepBeige.BetterFirstMove` | src/scrabble/DeepBeige.java:107-129 | `betterFirstMove` adds the centre candidates to the list without clearing it first and sends; an empty hand crashes |
| `Beige.DeepBeige.Send` | src/scrabble/DeepBeige.java:131-152 | `send` sorts the list and returns the last legal move's field: always an exchange |

## Left out

- I/O is a parameter or is left out.
  - The word files arrive as lists of words: `words.txt` lines, read in file order.
  - Logging, `StdOut`, `log.txt` and the `alreadyLoggedWords` set only write text and are not modelled.
  - `setGateKeeper` is replaced by passing the `GateKeeper` to each call.
- The `GateKeeper`, `Board`, `Location`, `PlayWord`, `ExchangeTiles` and `IllegalMoveException` classes are not part of this model.
  - The `GateKeeper`'s board, hand, scorer and legality check are given as values and functions (`Common.GateKeeper`).
  - `verifyLegality` throwing is modelled as the `legal` predicate being false.
- Runtime failures that the modelled code meets on the inputs a game gives it are results rather than exceptions: a null dereference or an index out of bounds becomes `None` or `false`. The partial move list left behind by a failed search is not stated. Three kinds of failure are excluded by preconditions instead, and are not modelled:
  - the `GateKeeper`'s scorer failing, whose code is not part of this model (next line);
  - a layout smaller than 15x15 given to `PossiBoard.PossiBoard.FromLayout` (its `requires` on `Length0` and `Length1`). The copy loop at src/scrabble/PossiBoard.java:148-152 lies outside the `try`, so such an array throws an uncaught `ArrayIndexOutOfBoundsException`. Every board layout of the game is 15x15;
  - a hand character other than `'a'..'z'` and the blank `'_'` (the `HandTiles` preconditions of both finders and of `Beige.DeepBeige`). Both finders index `seen[c - 97]` (WordFinder.java:83, src/scrabble/WordFinder.java:110), which is out of bounds for any other character. A rack of the game holds only these tiles.
- `Common.GateKeeper`: the scorer `score` is assumed total. The game's `Board` is not part of this model, but `PossiBoard.score`, which scores the same way on a board of its own, reads squares past the edge for a placement that runs off the board; `PossiBoard.PossiBoard.ScoreMainWord` returns `None` there. The game's scorer is taken to fail the same way. The guessing engines do not check placements before scoring: `DeepBeige.betterMove` (src/scrabble/DeepBeige.java:91-94) and the root `ScrabbleWinner.betterMove` (ScrabbleWinner.java:100-103) score a guess placed one square before a remembered tile. A tile in row 0 or column 0, or a 7-letter guess before a tile at column 10, makes that call throw, and `chooseMove` ends in an exception.
- `Beige.DeepBeige.ChooseMove`: states that it fails only on a first turn with an empty hand. The scorer exception above is not shown; the contract holds only for a scorer that never fails.
- `Legacy.ScrabbleWinner.ChooseMove`: states that it fails only on a first turn with no move list. The scorer exception above is not shown; the contract holds only for a scorer that never fails.
- The root `ScrabbleWinner.permutate` shuffles with `Math.random` and stops after 30 seconds.
  - The model takes the shuffles the random loop pushed as a parameter, an oracle that pushes distinct rearrangements of the letters.
  - `Legacy.Permutate` always returns. The Java loop does not end on two kinds of input, and the model does not capture either.
  - Any two letters, equal or not: the target is 1 and `j` is always 0, equal to `last` (ScrabbleWinner.java:188-190). The `continue` then skips every other statement, the clock test included. `betterMove` reaches this with a one-tile hand and one board tile.
  - A target above the number of distinct arrangements, such as four equal letters (target 2, one arrangement): after the arrangements run out only the clock test at ScrabbleWinner.java:202 can end the loop.
  - That clock test compares the start time, not the elapsed time, with 30 seconds. It either ends the loop after the first pass that reaches it or never ends it.
- `Collections.sort` is modelled as a stable insertion sort by descending score. Java's sort is stable, so it gives the same list.
- `Permutator.java` and `ScrabbleAIArena.java` are not part of this model, and neither is the GUI.
- The `permutate` and `Guess` members of `src/scrabble/ScrabbleWinner.java` are reached only from commented-out code and are not modelled.
- `PossiBoard.PossiBoard.PlayMove` assumes how `ScrabbleMove.play` dispatches, since the move classes are not part of this model: a `PlayWord` plays its word with the current player's full hand, and an `ExchangeTiles` exchanges its tiles.
- `PossiBoard`: `toString`, `getScore`, `getCurrentPlayer`, `gameIsOver`, `removeTiles` and `getHand` (a full rack) are not modelled. `canBeDrawnFromHand` always holds on a hypothetical board.
- `DeepBeige` imports a `WordFinder` whose call `getAvailableWords(dAttack, output)` matches the root `WordFinder.java`. The model uses that finder for it.
- The hand is taken to contain no `' '`. A blank is `'_'`, and a space in a word stands for a board tile. The spelling lemmas of `WinnerProperties` require this.
- `Legacy.ScrabbleWinner.ChooseMove`, `BetterMove` and `ListCandidates` require a hand of at most seven tiles, the size of a rack. That keeps the permutation target's factorials within Java `int`.
- `MoveSelection.Factorial`: the factorial is computed on unbounded integers. It agrees with the Java `int` only up to 12, which `FactorialFitsInt` states.
- `WordFinder.Finder.GetAvailableWords` and `GetAnchoredWords` require a hand of at most 100 tiles, the size of the `wordVal` buffer. `getAllWords` writes `wordVal[depth]` only at depths the trie search reaches. So a hand of more than 100 tiles overflows the buffer only when the trie has a path that deep. The model bounds the hand instead of the trie's depth.
- The word lists given to the finders are taken to hold non-empty lower-case words. An empty line, or a line with any other character, makes `addWord` index out of bounds. Both constructors catch that exception (WordFinder.java:119, src/scrabble/WordFinder.java:173), print "Couldn't find wordlist" and stop reading. The finder keeps the words loaded so far, plus any nodes `getChildW` created for the failing line's letters before the bad one. The model does not capture this early stop.
- `validWord` of both finders is the predicate `WordTrie.ValidWord`. It is used by `InsertPrefixesValid` and not modelled as a method.
- `WordFinder.FoundProperties`: states that every reported word is laid from the hand, and when nothing is reported. It does not list which words are reported. The exact output is `Found`, which `GetAllWords` is proved to compute, and the concrete lemmas show its quirks.
- `Winner.BuildMovesShape` and the `WinnerProperties` lemmas state that every recorded move is a dictionary candidate. They do not state that every candidate is recorded, because the search skips words the out-edge loop cannot reach through the hand.
