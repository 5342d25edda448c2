/** The `DeepBeige` engine: it remembers every tile it has seen on the
    board, builds candidates from the words the trie word finder spells with
    the hand plus one board tile, sorts them by score and sends the last
    legal one. Its `Move` records never carry a play, so it always exchanges. */
module Beige {
  import opened Common
  import opened MoveSelection
  import opened HandParsing
  import opened WordTrie
  import opened LegacyWordFinder

  /** What `permutate` returns for `letters`: the words of the trie the
      letters spell, blanks read as 'e'. */
  function Guesses(nodes: seq<WordNode>, letters: seq<char>): seq<string>
    requires Linked(nodes) && |letters| >= 1 && HandTiles(letters)
  {
    Words(nodes, 0, ParsedHand(letters, 'e'))
  }

  /** The guesses of the hand with one board letter added. */
  function TileGuesses(nodes: seq<WordNode>, hand: seq<char>, c: char): seq<string>
    requires Linked(nodes) && HandTiles(hand) && IsLower(c)
  {
    HandPlusTile(hand, c);
    Guesses(nodes, hand + [c])
  }

  /** The candidates `betterMove` builds from the tiles `tiles`, in order:
      for each tile, the across and down moves of every other guess spelled
      with the hand and the tile's letter, placed before the tile. */
  function TileMoves(gk: GateKeeper, nodes: seq<WordNode>, tiles: seq<Tile>): seq<Move>
    requires Linked(nodes) && HandTiles(gk.hand) && LetterTiles(tiles)
  {
    if tiles == [] then []
    else
      var t := tiles[|tiles| - 1];
      TileMoves(gk, nodes, tiles[..|tiles| - 1]) + GuessMoves(gk, TileGuesses(nodes, gk.hand, t.value), 0, t.location)
  }

  /** The candidates of tile `t`: those of the guesses of the hand plus
      `t`'s letter, at `t`. */
  predicate FromTile(gk: GateKeeper, nodes: seq<WordNode>, t: Tile, m: Move)
    requires Linked(nodes) && HandTiles(gk.hand) && IsLower(t.value)
  {
    Tried(gk, TileGuesses(nodes, gk.hand, t.value), t.location, m)
  }

  /** A candidate of one of the tiles `tiles`. */
  predicate FromSomeTile(gk: GateKeeper, nodes: seq<WordNode>, tiles: seq<Tile>, m: Move)
    requires Linked(nodes) && HandTiles(gk.hand) && LetterTiles(tiles)
  {
    exists t :: t in tiles && IsLower(t.value) && FromTile(gk, nodes, t, m)
  }

  lemma FromSomeTileSnoc(gk: GateKeeper, nodes: seq<WordNode>, tiles: seq<Tile>, m: Move)
    requires Linked(nodes) && HandTiles(gk.hand) && LetterTiles(tiles) && tiles != []
    ensures FromSomeTile(gk, nodes, tiles, m) <==>
              FromSomeTile(gk, nodes, tiles[..|tiles| - 1], m) || FromTile(gk, nodes, tiles[|tiles| - 1], m)
  {
    var n := |tiles| - 1;
    assert tiles == tiles[..n] + [tiles[n]];
  }

  /** The candidates of `betterMove` are exactly the tried guesses of the
      remembered tiles, each across and down from before its tile. */
  lemma {:induction false} TileMovesAre(gk: GateKeeper, nodes: seq<WordNode>, tiles: seq<Tile>, m: Move)
    requires Linked(nodes) && HandTiles(gk.hand) && LetterTiles(tiles)
    ensures m in TileMoves(gk, nodes, tiles) <==> FromSomeTile(gk, nodes, tiles, m)
  {
    if tiles != [] {
      var n := |tiles| - 1;
      var t := tiles[n];
      var guesses := TileGuesses(nodes, gk.hand, t.value);
      assert TileMoves(gk, nodes, tiles) == TileMoves(gk, nodes, tiles[..n]) + GuessMoves(gk, guesses, 0, t.location);
      TileMovesAre(gk, nodes, tiles[..n], m);
      GuessMovesTried(gk, guesses, t.location, m);
      FromSomeTileSnoc(gk, nodes, tiles, m);
    }
  }

  /** Every guess is a word of the trie. */
  lemma TileGuessesStored(nodes: seq<WordNode>, hand: seq<char>, c: char)
    requires Linked(nodes) && HandTiles(hand) && IsLower(c)
    ensures forall w :: w in TileGuesses(nodes, hand, c) ==> w in StoredWords(nodes)
  {
    HandPlusTile(hand, c);
    WordsAreStored(nodes, 0, ParsedHand(hand + [c], 'e'));
  }

  /** Every candidate is placed with a word of the dictionary trie. */
  lemma CandidateWordsStored(gk: GateKeeper, nodes: seq<WordNode>, tiles: seq<Tile>)
    requires Linked(nodes) && HandTiles(gk.hand) && LetterTiles(tiles)
    ensures forall m :: m in TileMoves(gk, nodes, tiles) ==> m.word in StoredWords(nodes)
  {
    forall m | m in TileMoves(gk, nodes, tiles)
      ensures m.word in StoredWords(nodes)
    {
      TileMovesAre(gk, nodes, tiles, m);
      var t :| t in tiles && IsLower(t.value) && FromTile(gk, nodes, t, m);
      TriedIsGuess(gk, TileGuesses(nodes, gk.hand, t.value), t.location, m);
      TileGuessesStored(nodes, gk.hand, t.value);
    }
  }

  /** No candidate of `betterMove` carries a play. */
  lemma {:induction false} TileMovesUnplayed(gk: GateKeeper, nodes: seq<WordNode>, tiles: seq<Tile>)
    requires Linked(nodes) && HandTiles(gk.hand) && LetterTiles(tiles)
    ensures Unplayed(TileMoves(gk, nodes, tiles))
  {
    var ms := TileMoves(gk, nodes, tiles);
    forall k | 0 <= k < |ms|
      ensures ms[k].play.None?
    {
      TileMovesAre(gk, nodes, tiles, ms[k]);
    }
  }

  /** The engine: the tiles it has read from the board on every turn, the
      candidates of its last search, and its trie word finder. */
  class DeepBeige {
    var tiles: seq<Tile>
    var moves: seq<Move>
    const wordfinder: Finder

    ghost predicate Valid()
      reads this, wordfinder, wordfinder.root
    {
      && wordfinder.Valid()
      && LetterTiles(tiles)
      && Unplayed(moves)
    }

    /** The constructor, with the dictionary's words given in file order. */
    constructor (words: seq<string>)
      requires forall i :: 0 <= i < |words| ==> LowerWord(words[i]) && |words[i]| >= 1
      ensures Valid() && tiles == [] && moves == []
      ensures Arena(wordfinder.root.nodes, wordfinder.root.labels) == Build(words)
    {
      tiles := [];
      wordfinder := new Finder(words);
      moves := [];
    }

    /** `chooseMove`: pushes every letter on the board onto the tiles (never
        cleared), then searches from the centre on the first turn and from
        the tiles otherwise. An empty hand on the first turn has no guesses
        and the engine fails (`None`); otherwise it exchanges everything. */
    method ChooseMove(gk: GateKeeper) returns (r: Option<ScrabbleMove>)
      requires Valid() && ValidGateKeeper(gk) && HandTiles(gk.hand)
      modifies this`tiles, this`moves
      ensures Valid()
      ensures tiles == old(tiles) + BoardTiles(gk.board)
      ensures r.None? <==> FirstTurn(gk) && |gk.hand| == 0
      ensures r.None? ==> moves == old(moves)
      ensures FirstTurn(gk) && |gk.hand| >= 1 ==>
                moves == SortByScore(old(moves) + GuessMoves(gk, Guesses(wordfinder.root.nodes, gk.hand), 0, CENTER))
      ensures !FirstTurn(gk) ==> moves == SortByScore(TileMoves(gk, wordfinder.root.nodes, tiles))
      ensures r.Some? ==> r.value == LastLegalOutcome(gk, moves) == ExchangeTiles(ALL_TILES)
    {
      tiles := ScanBoard(gk, tiles);
      BoardTilesAre(gk.board);
      assert forall i :: 0 <= i < |tiles| ==> IsLower(tiles[i].value) by {
        forall i | 0 <= i < |tiles|
          ensures IsLower(tiles[i].value)
        {
          if i >= |old(tiles)| {
            assert tiles[i] in BoardTiles(gk.board);
          }
        }
      }
      if Square(gk, CENTER) == PossiBoard.DOUBLE_WORD_SCORE {
        r := BetterFirstMove(gk);
        return;
      }
      var m := BetterMove(gk);
      r := Some(m);
    }

    /** `betterMove`: the candidates of every remembered tile, then `send`. */
    method BetterMove(gk: GateKeeper) returns (r: ScrabbleMove)
      requires Valid() && ValidGateKeeper(gk) && HandTiles(gk.hand)
      modifies this`moves
      ensures Valid()
      ensures moves == SortByScore(TileMoves(gk, wordfinder.root.nodes, tiles))
      ensures r == LastLegalOutcome(gk, moves) == ExchangeTiles(ALL_TILES)
    {
      var nodes := wordfinder.root.nodes;
      moves := [];
      var i := 0;
      while i < |tiles|
        invariant 0 <= i <= |tiles|
        invariant moves == TileMoves(gk, nodes, tiles[..i])
      {
        var tile := tiles[i];
        HandPlusTile(gk.hand, tile.value);
        var guesses := wordfinder.GetAvailableWords(gk.hand + [tile.value]);
        moves := AddGuessMoves(gk, guesses.value, tile.location, moves);
        assert tiles[..i + 1][..i] == tiles[..i];
        i := i + 1;
      }
      assert tiles[..i] == tiles;
      TileMovesUnplayed(gk, nodes, tiles);
      r := Send(gk);
    }

    /** `betterFirstMove`: the candidates of the hand's guesses at the
        centre, added to the list without clearing it first, then `send`.
        An empty hand has no guesses: `None`. */
    method BetterFirstMove(gk: GateKeeper) returns (r: Option<ScrabbleMove>)
      requires Valid() && ValidGateKeeper(gk) && HandTiles(gk.hand)
      modifies this`moves
      ensures Valid()
      ensures r.None? <==> |gk.hand| == 0
      ensures r.None? ==> moves == old(moves)
      ensures |gk.hand| >= 1 ==>
                moves == SortByScore(old(moves) + GuessMoves(gk, Guesses(wordfinder.root.nodes, gk.hand), 0, CENTER))
      ensures r.Some? ==> r.value == LastLegalOutcome(gk, moves) == ExchangeTiles(ALL_TILES)
    {
      var guesses := wordfinder.GetAvailableWords(gk.hand);
      if guesses.None? {
        return None;
      }
      GuessMovesUnplayed(gk, guesses.value, CENTER);
      moves := AddGuessMoves(gk, guesses.value, CENTER, moves);
      var m := Send(gk);
      r := Some(m);
    }

    /** `send`: sorts the candidates by descending score, then takes the
        `move` field of the last legal one, which is never set. */
    method Send(gk: GateKeeper) returns (r: ScrabbleMove)
      requires wordfinder.Valid() && LetterTiles(tiles) && Unplayed(moves)
      modifies this`moves
      ensures Valid()
      ensures moves == SortByScore(old(moves))
      ensures r == LastLegalOutcome(gk, moves) == ExchangeTiles(ALL_TILES)
    {
      SendExchanges(gk, moves);
      moves := SortByScore(moves);
      r := SendLastLegal(gk, moves);
    }
  }
}
