/** The first `ScrabbleWinner` engine: like `DeepBeige` it remembers the
    tiles it has read from the board, but it guesses words by shuffling the
    hand plus one board tile and keeping the prefixes of the shuffles that
    are in a dictionary set. Its `Move` records never carry a play either. */
module Legacy {
  import opened Common
  import opened MoveSelection

  // ---------------------------------------------------------------------------
  // The permutation target of `permutate`

  /** The distinct letters of `letters`. */
  function Distinct(letters: seq<char>): set<char> {
    set c | c in letters
  }

  /** There are no more distinct letters than letters. */
  lemma {:induction false} DistinctAtMost(letters: seq<char>)
    ensures |Distinct(letters)| <= |letters|
  {
    if letters != [] {
      var init := letters[..|letters| - 1];
      DistinctAtMost(init);
      assert letters == init + [letters[|letters| - 1]];
      assert Distinct(letters) == Distinct(init) + {letters[|letters| - 1]};
    }
  }

  /** `maxPermutations`: `n! / (2 (n - d)!)`, with `n` letters of which `d`
      are distinct, in integer division. */
  function Target(letters: seq<char>): nat {
    var n := |letters|;
    var d := |Distinct(letters)|;
    if d > n then 0
    else
      Quotient(Factorial(n), 2 * Factorial(n - d))
  }

  /** Integer division of a count by a positive count. */
  function Quotient(a: nat, b: nat): (q: nat)
    requires b >= 1
    ensures q * b <= a < (q + 1) * b
  {
    a / b
  }

  /** With no repeated letter the target is half of all orderings. */
  lemma TargetAllDistinct(letters: seq<char>)
    requires |Distinct(letters)| == |letters|
    ensures Target(letters) == Factorial(|letters|) / 2
  {
  }

  /** With all letters the same the target is half the number of letters. */
  lemma TargetOneLetter(c: char, n: nat)
    requires n >= 1
    ensures Target(Repeat(c, n)) == n / 2
  {
    var letters := Repeat(c, n);
    assert letters[0] == c;
    assert Distinct(letters) == {c};
    var f := Factorial(n - 1);
    FactorialStep(n, f);
    HalfCancels(n, f);
  }

  lemma HalfCancels(a: nat, f: nat)
    requires f >= 1
    ensures (a * f) / (2 * f) == a / 2
  {
    var q := a / 2;
    var r := a % 2;
    assert a == 2 * q + r;
    assert a * f == q * (2 * f) + r * f by {
      assert a * f == (2 * q + r) * f;
    }
    assert 0 <= r * f < 2 * f;
    DivUnique(a * f, 2 * f, q, r * f);
  }

  lemma DivUnique(x: nat, d: nat, q: nat, r: nat)
    requires d >= 1 && x == q * d + r && r < d
    ensures x / d == q
  {
    var q2 := x / d;
    var r2 := x % d;
    assert x == q2 * d + r2 && 0 <= r2 < d;
    if q2 > q {
      MulMonotone(q + 1, q2, d);
      assert false;
    } else if q2 < q {
      MulMonotone(q2 + 1, q, d);
      assert false;
    }
  }

  lemma MulMonotone(a: nat, b: nat, d: nat)
    requires a <= b
    ensures a * d <= b * d
  {
    assert b * d == a * d + (b - a) * d;
  }

  /** The first part of `permutate`: collects the distinct letters in a set,
      then computes the target. Java `int` holds the factorials up to 12!. */
  method PermutationTarget(dAttack: seq<char>) returns (maxPermutations: int)
    requires |dAttack| <= 12
    ensures maxPermutations == Target(dAttack)
  {
    var characters: set<char> := {};
    var i := 0;
    while i < |dAttack|
      invariant 0 <= i <= |dAttack|
      invariant characters == Distinct(dAttack[..i])
    {
      var c := dAttack[i];
      assert dAttack[..i + 1] == dAttack[..i] + [c];
      if c in characters {
        i := i + 1;
        continue;
      }
      characters := characters + {c};
      i := i + 1;
    }
    assert dAttack[..i] == dAttack;
    DistinctAtMost(dAttack);
    FactorialFitsInt(|dAttack|);
    maxPermutations := Factorial(|dAttack|) / (2 * Factorial(|dAttack| - |characters|));
  }

  // ---------------------------------------------------------------------------
  // The harvest of `permutate`

  /** The words of `dictionary` among the prefixes of `word` of lengths 2
      to `k`, shortest first (none when `word` is shorter than `k`). */
  function DictionaryPrefixes(dictionary: set<string>, word: string, k: nat): seq<string> {
    if k < 2 || |word| < k then []
    else DictionaryPrefixes(dictionary, word, k - 1) + (if word[..k] in dictionary then [word[..k]] else [])
  }

  /** The dictionary prefixes of the shuffles popped off the `words` stack
      while it shrinks to `top` entries: the last one pushed first. */
  function PoppedPrefixes(dictionary: set<string>, words: seq<string>, top: nat, length: nat): seq<string>
    decreases |words| - top
  {
    if top >= |words| then []
    else PoppedPrefixes(dictionary, words, top + 1, length) + DictionaryPrefixes(dictionary, words[top], length)
  }

  /** The entries of `s` without repeats, each where it first appears. */
  function FirstOccurrences(s: seq<string>): seq<string> {
    if s == [] then []
    else
      var r := FirstOccurrences(s[..|s| - 1]);
      if s[|s| - 1] in r then r else r + [s[|s| - 1]]
  }

  /** The position of the first `x` in `s`. */
  function FirstIndex(s: seq<string>, x: string): (i: nat)
    requires x in s
    ensures i < |s| && s[i] == x && x !in s[..i]
  {
    if x in s[..|s| - 1] then FirstIndex(s[..|s| - 1], x) else |s| - 1
  }

  predicate NoRepeats(s: seq<string>) {
    forall i, j :: 0 <= i < j < |s| ==> s[i] != s[j]
  }

  /** The first occurrences hold each entry of `s` once. */
  lemma {:induction false} FirstOccurrencesAre(s: seq<string>)
    ensures NoRepeats(FirstOccurrences(s))
    ensures forall x :: x in FirstOccurrences(s) <==> x in s
  {
    if s != [] {
      var init := s[..|s| - 1];
      FirstOccurrencesAre(init);
      assert s == init + [s[|s| - 1]];
    }
  }

  /** The first occurrences keep the order in which entries first appear. */
  lemma {:induction false} FirstOccurrencesOrdered(s: seq<string>)
    ensures forall i, j :: 0 <= i < j < |FirstOccurrences(s)| ==>
              FirstOccurrences(s)[i] in s && FirstOccurrences(s)[j] in s &&
              FirstIndex(s, FirstOccurrences(s)[i]) < FirstIndex(s, FirstOccurrences(s)[j])
  {
    FirstOccurrencesAre(s);
    if s != [] {
      var init := s[..|s| - 1];
      var x := s[|s| - 1];
      var r := FirstOccurrences(init);
      FirstOccurrencesOrdered(init);
      FirstOccurrencesAre(init);
      assert s == init + [x];
      forall y | y in init
        ensures FirstIndex(s, y) == FirstIndex(init, y)
      {
        assert y in s[..|s| - 1];
      }
      if x !in r {
        assert x !in s[..|s| - 1];
        assert FirstIndex(s, x) == |s| - 1;
      }
    }
  }

  /** A word's dictionary prefixes of lengths 2 to `k`. */
  lemma {:induction false} DictionaryPrefixesAre(dictionary: set<string>, word: string, k: nat, x: string)
    ensures x in DictionaryPrefixes(dictionary, word, k) <==>
              k <= |word| && x in dictionary && 2 <= |x| <= k && x == word[..|x|]
  {
    if 2 <= k <= |word| {
      DictionaryPrefixesAre(dictionary, word, k - 1, x);
    }
  }

  /** A shuffle from entry `top` of the stack up with `x` as one of its
      dictionary prefixes of lengths 2 to `length`. */
  predicate PrefixOfSome(dictionary: set<string>, words: seq<string>, top: nat, length: nat, x: string) {
    exists i :: top <= i < |words| && length <= |words[i]| && x in dictionary && 2 <= |x| <= length && x == words[i][..|x|]
  }

  /** The popped prefixes are the dictionary prefixes of lengths 2 to
      `length` of the shuffles popped. */
  lemma {:induction false} PoppedPrefixesAre(dictionary: set<string>, words: seq<string>, top: nat, length: nat, x: string)
    ensures x in PoppedPrefixes(dictionary, words, top, length) <==> PrefixOfSome(dictionary, words, top, length, x)
    decreases |words| - top
  {
    if top < |words| {
      PoppedPrefixesAre(dictionary, words, top + 1, length, x);
      DictionaryPrefixesAre(dictionary, words[top], length, x);
      if PrefixOfSome(dictionary, words, top, length, x) {
        var i :| top <= i < |words| && length <= |words[i]| && x in dictionary && 2 <= |x| <= length && x == words[i][..|x|];
        if i > top {
          assert PrefixOfSome(dictionary, words, top + 1, length, x);
        }
      }
    }
  }

  /** The guesses `permutate` returns for the shuffles `words`. */
  function Harvest(dictionary: set<string>, words: seq<string>, length: nat): seq<string> {
    FirstOccurrences(PoppedPrefixes(dictionary, words, 0, length))
  }

  /** Each dictionary prefix of lengths 2 to `length` of the shuffles
      appears once among the guesses, and nothing else does. */
  lemma HarvestAre(dictionary: set<string>, words: seq<string>, length: nat)
    ensures NoRepeats(Harvest(dictionary, words, length))
    ensures forall x :: x in Harvest(dictionary, words, length) <==> PrefixOfSome(dictionary, words, 0, length, x)
  {
    FirstOccurrencesAre(PoppedPrefixes(dictionary, words, 0, length));
    forall x
      ensures x in PoppedPrefixes(dictionary, words, 0, length) <==> PrefixOfSome(dictionary, words, 0, length, x)
    {
      PoppedPrefixesAre(dictionary, words, 0, length, x);
    }
  }

  /** Shuffles of `letters` only: every guess is spelled with the letters,
      each used at most as often as it occurs. */
  lemma HarvestSpelledFrom(dictionary: set<string>, words: seq<string>, letters: seq<char>, x: string)
    requires forall w :: w in words ==> multiset(w) == multiset(letters)
    requires x in Harvest(dictionary, words, |letters|)
    ensures multiset(x) <= multiset(letters)
  {
    HarvestAre(dictionary, words, |letters|);
    var i :| 0 <= i < |words| && |letters| <= |words[i]| && x in dictionary && 2 <= |x| <= |letters| && x == words[i][..|x|];
    var w := words[i];
    assert w in words;
    assert w == x + w[|x|..];
    assert multiset(w) == multiset(x) + multiset(w[|x|..]);
  }

  /** The harvest loop of `permutate`: pops every shuffle off the stack
      (which holds `words[..top]`), keeps each of its prefixes of lengths 2
      to `length` that the dictionary holds and that was not kept before,
      and lists them in the order kept. */
  method HarvestGuesses(dictionary: set<string>, words: seq<string>, length: nat) returns (guesses: seq<string>)
    requires forall i :: 0 <= i < |words| ==> length <= |words[i]|
    ensures guesses == Harvest(dictionary, words, length)
  {
    var top := |words|;
    var uniqueWords: set<string> := {};
    var tempGuesses: seq<string> := [];
    while top > 0
      invariant 0 <= top <= |words|
      invariant tempGuesses == FirstOccurrences(PoppedPrefixes(dictionary, words, top, length))
      invariant forall x :: x in uniqueWords <==> x in tempGuesses
    {
      var word := words[top - 1];
      top := top - 1;
      tempGuesses, uniqueWords := HarvestWord(dictionary, word, length, tempGuesses, uniqueWords,
                                              PoppedPrefixes(dictionary, words, top + 1, length));
    }
    guesses := tempGuesses;
  }

  /** The body of the harvest loop for one shuffle `word`: its prefixes of
      lengths 2 to `length` that the dictionary holds and that were not
      kept before are kept, shortest first. */
  method HarvestWord(dictionary: set<string>, word: string, length: nat, tempGuesses0: seq<string>,
                     uniqueWords0: set<string>, ghost seen: seq<string>)
    returns (tempGuesses: seq<string>, uniqueWords: set<string>)
    requires length <= |word|
    requires tempGuesses0 == FirstOccurrences(seen)
    requires forall x :: x in uniqueWords0 <==> x in tempGuesses0
    ensures tempGuesses == FirstOccurrences(seen + DictionaryPrefixes(dictionary, word, length))
    ensures forall x :: x in uniqueWords <==> x in tempGuesses
  {
    tempGuesses, uniqueWords := tempGuesses0, uniqueWords0;
    ghost var kept := seen;
    var wordLength := 2;
    while wordLength <= length
      invariant 2 <= wordLength && (wordLength <= length + 1 || wordLength == 2)
      invariant kept == seen + DictionaryPrefixes(dictionary, word, wordLength - 1)
      invariant tempGuesses == FirstOccurrences(kept)
      invariant forall x :: x in uniqueWords <==> x in tempGuesses
    {
      var guess := word[..wordLength];
      if guess in dictionary {
        assert (kept + [guess])[..|kept|] == kept;
        if guess !in uniqueWords {
          tempGuesses := tempGuesses + [guess];
          uniqueWords := uniqueWords + {guess};
        }
        kept := kept + [guess];
      }
      wordLength := wordLength + 1;
    }
    assert DictionaryPrefixes(dictionary, word, wordLength - 1) == DictionaryPrefixes(dictionary, word, length);
  }

  /** What the random half of `permutate` can push for `letters`: distinct
      shuffles of the letters. */
  predicate Shuffles(letters: seq<char>, words: seq<string>) {
    && (forall w :: w in words ==> multiset(w) == multiset(letters))
    && NoRepeats(words)
  }

  /** `permutate`, with the shuffles its random half pushed given in push
      order: computes the target, then harvests the shuffles. */
  method Permutate(dictionary: set<string>, dAttack: seq<char>, words: seq<string>) returns (guesses: seq<string>)
    requires |dAttack| <= 12 && Shuffles(dAttack, words)
    ensures guesses == Harvest(dictionary, words, |dAttack|)
  {
    var maxPermutations := PermutationTarget(dAttack);
    forall i | 0 <= i < |words|
      ensures |dAttack| <= |words[i]|
    {
      assert words[i] in words;
      assert |multiset(words[i])| == |multiset(dAttack)|;
    }
    guesses := HarvestGuesses(dictionary, words, |dAttack|);
  }

  // ---------------------------------------------------------------------------
  // The engine

  /** The lines of the word file, as the dictionary set. */
  function Lines(lines: seq<string>): set<string> {
    set w | w in lines
  }

  /** The random half of `permutate`: its `k`-th call in a turn pushes the
      shuffles `shuffle(letters, k)` for the letters `letters`. */
  type Shuffler = (seq<char>, nat) -> seq<string>

  ghost predicate Shuffling(shuffle: Shuffler) {
    forall letters: seq<char>, k: nat :: Shuffles(letters, shuffle(letters, k))
  }

  lemma ShufflesAt(shuffle: Shuffler, letters: seq<char>, k: nat)
    requires Shuffling(shuffle)
    ensures Shuffles(letters, shuffle(letters, k))
  {
  }

  /** The guesses for the hand plus the letter of tile `t`, at call `k`. */
  function TileGuesses(gk: GateKeeper, dictionary: set<string>, shuffle: Shuffler, t: Tile, k: nat): seq<string> {
    Harvest(dictionary, shuffle(gk.hand + [t.value], k), |gk.hand| + 1)
  }

  /** The candidates `betterMove` builds from the tiles `tiles`, in order:
      for tile `k`, the across and down moves of every other guess of the
      hand plus its letter, placed before the tile. */
  function TileMoves(gk: GateKeeper, dictionary: set<string>, shuffle: Shuffler, tiles: seq<Tile>): seq<Move> {
    if tiles == [] then []
    else
      var k := |tiles| - 1;
      TileMoves(gk, dictionary, shuffle, tiles[..k]) + GuessMoves(gk, TileGuesses(gk, dictionary, shuffle, tiles[k], k), 0, tiles[k].location)
  }

  /** A candidate of tile `t`, the `k`-th tile searched. */
  predicate FromTile(gk: GateKeeper, dictionary: set<string>, shuffle: Shuffler, t: Tile, k: nat, m: Move) {
    Tried(gk, TileGuesses(gk, dictionary, shuffle, t, k), t.location, m)
  }

  /** A candidate of one of the tiles `tiles`. */
  predicate FromSomeTile(gk: GateKeeper, dictionary: set<string>, shuffle: Shuffler, tiles: seq<Tile>, m: Move) {
    exists k :: 0 <= k < |tiles| && FromTile(gk, dictionary, shuffle, tiles[k], k, m)
  }

  lemma FromSomeTileSnoc(gk: GateKeeper, dictionary: set<string>, shuffle: Shuffler, tiles: seq<Tile>, m: Move)
    requires tiles != []
    ensures var k := |tiles| - 1;
            FromSomeTile(gk, dictionary, shuffle, tiles, m) <==>
              FromSomeTile(gk, dictionary, shuffle, tiles[..k], m) || FromTile(gk, dictionary, shuffle, tiles[k], k, m)
  {
    FromSomeTileInit(gk, dictionary, shuffle, tiles, m);
    FromSomeTileLast(gk, dictionary, shuffle, tiles, m);
    FromSomeTileSplit(gk, dictionary, shuffle, tiles, m);
  }

  lemma FromSomeTileInit(gk: GateKeeper, dictionary: set<string>, shuffle: Shuffler, tiles: seq<Tile>, m: Move)
    requires tiles != []
    ensures FromSomeTile(gk, dictionary, shuffle, tiles[..|tiles| - 1], m) ==> FromSomeTile(gk, dictionary, shuffle, tiles, m)
  {
    var init := tiles[..|tiles| - 1];
    if FromSomeTile(gk, dictionary, shuffle, init, m) {
      var k :| 0 <= k < |init| && FromTile(gk, dictionary, shuffle, init[k], k, m);
      assert init[k] == tiles[k];
    }
  }

  lemma FromSomeTileLast(gk: GateKeeper, dictionary: set<string>, shuffle: Shuffler, tiles: seq<Tile>, m: Move)
    requires tiles != []
    ensures var k := |tiles| - 1;
            FromTile(gk, dictionary, shuffle, tiles[k], k, m) ==> FromSomeTile(gk, dictionary, shuffle, tiles, m)
  {
  }

  lemma FromSomeTileSplit(gk: GateKeeper, dictionary: set<string>, shuffle: Shuffler, tiles: seq<Tile>, m: Move)
    requires tiles != []
    ensures var k := |tiles| - 1;
            FromSomeTile(gk, dictionary, shuffle, tiles, m) ==>
              FromSomeTile(gk, dictionary, shuffle, tiles[..k], m) || FromTile(gk, dictionary, shuffle, tiles[k], k, m)
  {
    var n := |tiles| - 1;
    var init := tiles[..n];
    if FromSomeTile(gk, dictionary, shuffle, tiles, m) {
      var k :| 0 <= k < |tiles| && FromTile(gk, dictionary, shuffle, tiles[k], k, m);
      if k < n {
        assert init[k] == tiles[k];
      }
    }
  }

  /** The candidates of `betterMove` are exactly the tried guesses of the
      remembered tiles, each across and down from before its tile. */
  lemma {:induction false} TileMovesAre(gk: GateKeeper, dictionary: set<string>, shuffle: Shuffler, tiles: seq<Tile>, m: Move)
    ensures m in TileMoves(gk, dictionary, shuffle, tiles) <==> FromSomeTile(gk, dictionary, shuffle, tiles, m)
  {
    if tiles != [] {
      var k := |tiles| - 1;
      var guesses := TileGuesses(gk, dictionary, shuffle, tiles[k], k);
      assert TileMoves(gk, dictionary, shuffle, tiles) ==
             TileMoves(gk, dictionary, shuffle, tiles[..k]) + GuessMoves(gk, guesses, 0, tiles[k].location);
      TileMovesAre(gk, dictionary, shuffle, tiles[..k], m);
      GuessMovesTried(gk, guesses, tiles[k].location, m);
      FromSomeTileSnoc(gk, dictionary, shuffle, tiles, m);
    }
  }

  /** A candidate of tile `t` is a dictionary word of two letters or more
      and no more than the hand plus one, spelled with the hand and `t`'s
      letter. */
  lemma TileCandidateWord(gk: GateKeeper, dictionary: set<string>, shuffle: Shuffler, t: Tile, k: nat, m: Move)
    requires Shuffling(shuffle) && FromTile(gk, dictionary, shuffle, t, k, m)
    ensures m.word in dictionary && 2 <= |m.word| <= |gk.hand| + 1
    ensures multiset(m.word) <= multiset(gk.hand + [t.value])
  {
    var letters := gk.hand + [t.value];
    var words := shuffle(letters, k);
    TriedIsGuess(gk, TileGuesses(gk, dictionary, shuffle, t, k), t.location, m);
    HarvestAre(dictionary, words, |letters|);
    ShufflesAt(shuffle, letters, k);
    HarvestSpelledFrom(dictionary, words, letters, m.word);
  }

  /** Every candidate word is in the dictionary, has two letters or more
      and no more than the hand plus one, and is spelled with the hand and
      the letter of one remembered tile. */
  lemma CandidateWords(gk: GateKeeper, dictionary: set<string>, shuffle: Shuffler, tiles: seq<Tile>, m: Move)
    requires Shuffling(shuffle)
    requires m in TileMoves(gk, dictionary, shuffle, tiles)
    ensures m.word in dictionary && 2 <= |m.word| <= |gk.hand| + 1
    ensures exists t :: t in tiles && multiset(m.word) <= multiset(gk.hand + [t.value])
  {
    TileMovesAre(gk, dictionary, shuffle, tiles, m);
    var k :| 0 <= k < |tiles| && FromTile(gk, dictionary, shuffle, tiles[k], k, m);
    TileCandidateWord(gk, dictionary, shuffle, tiles[k], k, m);
    assert tiles[k] in tiles;
  }

  /** No candidate of `betterMove` carries a play. */
  lemma {:induction false} TileMovesUnplayed(gk: GateKeeper, dictionary: set<string>, shuffle: Shuffler, tiles: seq<Tile>)
    ensures Unplayed(TileMoves(gk, dictionary, shuffle, tiles))
  {
    var ms := TileMoves(gk, dictionary, shuffle, tiles);
    forall i | 0 <= i < |ms|
      ensures ms[i].play.None?
    {
      TileMovesAre(gk, dictionary, shuffle, tiles, ms[i]);
    }
  }

  /** The tile loop of `betterMove`: for tile `i`, the guesses of the hand
      plus its letter, across and down from before the tile. */
  method ListCandidates(gk: GateKeeper, dictionary: set<string>, shuffle: Shuffler, tiles: seq<Tile>)
    returns (found: seq<Move>)
    requires |gk.hand| <= 7 && Shuffling(shuffle)
    ensures found == TileMoves(gk, dictionary, shuffle, tiles)
  {
    found := [];
    var i := 0;
    while i < |tiles|
      invariant 0 <= i <= |tiles|
      invariant found == TileMoves(gk, dictionary, shuffle, tiles[..i])
    {
      var tile := tiles[i];
      var dAttack := gk.hand + [tile.value];
      ShufflesAt(shuffle, dAttack, i);
      var guesses := Permutate(dictionary, dAttack, shuffle(dAttack, i));
      found := AddGuessMoves(gk, guesses, tile.location, found);
      assert tiles[..i + 1][..i] == tiles[..i];
      i := i + 1;
    }
    assert tiles[..i] == tiles;
  }

  /** The engine: the tiles it has read from the board, the dictionary set
      (none before `Start`), and the candidates of its last search (none
      before its first `betterMove`). */
  class ScrabbleWinner {
    var tiles: seq<Tile>
    var dictionary: Option<set<string>>
    var moves: Option<seq<Move>>
    /** The lines of the word file. */
    const wordLines: seq<string>

    ghost predicate Valid()
      reads this
    {
      && LetterTiles(tiles)
      && (dictionary.Some? ==> dictionary.value == Lines(wordLines))
      && (moves.Some? ==> Unplayed(moves.value))
    }

    /** The default constructor: nothing is loaded and no move is listed;
        the empty `tiles` stands for the stack `chooseMove` creates when
        there is none. */
    constructor (lines: seq<string>)
      ensures Valid() && wordLines == lines
      ensures tiles == [] && dictionary == None && moves == None
    {
      wordLines := lines;
      tiles := [];
      dictionary := None;
      moves := None;
    }

    /** `chooseMove`: pushes every letter on the board onto the tiles. On
        the first turn `Start` clears them again and `betterFirstMove`
        answers; otherwise `betterMove` does, which also starts the engine,
        clearing the tiles, when the dictionary is not loaded. The answer is
        an exchange of everything, or a failure (`None`) when the first turn
        comes before any candidate list exists. */
    method ChooseMove(gk: GateKeeper, shuffle: Shuffler) returns (r: Option<ScrabbleMove>)
      requires Valid() && ValidGateKeeper(gk) && |gk.hand| <= 7 && Shuffling(shuffle)
      modifies this`tiles, this`dictionary, this`moves
      ensures Valid() && dictionary == Some(Lines(wordLines))
      ensures tiles == (if FirstTurn(gk) || old(dictionary).None? then [] else old(tiles) + BoardTiles(gk.board))
      ensures FirstTurn(gk) ==> moves == (if old(moves).None? then None else Some(SortByScore(old(moves).value)))
      ensures !FirstTurn(gk) ==> moves == Some(SortByScore(TileMoves(gk, Lines(wordLines), shuffle, tiles)))
      ensures r.None? <==> FirstTurn(gk) && old(moves).None?
      ensures r.Some? ==> moves.Some? && r.value == LastLegalOutcome(gk, moves.value) == ExchangeTiles(ALL_TILES)
    {
      tiles := ScanBoard(gk, tiles);
      BoardTilesAre(gk.board);
      assert LetterTiles(tiles) by {
        forall i | 0 <= i < |tiles|
          ensures IsLower(tiles[i].value)
        {
          if i >= |old(tiles)| {
            assert tiles[i] in BoardTiles(gk.board);
          }
        }
      }
      if Square(gk, CENTER) == PossiBoard.DOUBLE_WORD_SCORE {
        Start();
        r := BetterFirstMove(gk, shuffle);
        return;
      }
      var m := BetterMove(gk, shuffle);
      r := Some(m);
    }

    /** `Start`: empties the tiles and loads the dictionary. */
    method Start()
      requires Valid()
      modifies this`tiles, this`dictionary
      ensures Valid() && tiles == [] && dictionary == Some(Lines(wordLines))
    {
      tiles := [];
      dictionary := Some(Lines(wordLines));
    }

    /** `betterMove`: starts the engine if needed, then lists the
        candidates of every remembered tile and sends. */
    method BetterMove(gk: GateKeeper, shuffle: Shuffler) returns (r: ScrabbleMove)
      requires Valid() && |gk.hand| <= 7 && Shuffling(shuffle)
      modifies this`tiles, this`dictionary, this`moves
      ensures Valid() && dictionary == Some(Lines(wordLines))
      ensures tiles == (if old(dictionary).None? then [] else old(tiles))
      ensures moves == Some(SortByScore(TileMoves(gk, Lines(wordLines), shuffle, tiles)))
      ensures r == LastLegalOutcome(gk, moves.value) == ExchangeTiles(ALL_TILES)
    {
      if dictionary.None? {
        Start();
      }
      var words := dictionary.value;
      var found := ListCandidates(gk, words, shuffle, tiles);
      TileMovesUnplayed(gk, words, shuffle, tiles);
      moves := Some(found);
      var sent := Send(gk);
      r := sent.value;
    }

    /** `betterFirstMove`: harvests the guesses of the hand and scores them
        at the centre, but lists none of them, then sends whatever list the
        last `betterMove` left. */
    method BetterFirstMove(gk: GateKeeper, shuffle: Shuffler) returns (r: Option<ScrabbleMove>)
      requires Valid() && dictionary.Some? && |gk.hand| <= 7 && Shuffling(shuffle)
      modifies this`moves
      ensures Valid()
      ensures moves == (if old(moves).None? then None else Some(SortByScore(old(moves).value)))
      ensures r.None? <==> old(moves).None?
      ensures r.Some? ==> r.value == LastLegalOutcome(gk, moves.value) == ExchangeTiles(ALL_TILES)
    {
      var guesses := Permutate(dictionary.value, gk.hand, shuffle(gk.hand, 0));
      var i := 0;
      while i < |guesses| {
        var guess := guesses[i];
        var hMove := Scored(gk, guess, Antineighbor(CENTER, Horizontal), Horizontal);
        var vMove := Scored(gk, guess, Antineighbor(CENTER, Vertical), Vertical);
        i := i + 2;
      }
      r := Send(gk);
    }

    /** `send`: sorts the candidate list by descending score and takes the
        `move` field of the last legal one, which is never set; sorting a
        list that does not exist yet fails (`None`). */
    method Send(gk: GateKeeper) returns (r: Option<ScrabbleMove>)
      requires Valid()
      modifies this`moves
      ensures Valid()
      ensures moves == (if old(moves).None? then None else Some(SortByScore(old(moves).value)))
      ensures r.None? <==> old(moves).None?
      ensures r.Some? ==> r.value == LastLegalOutcome(gk, moves.value) == ExchangeTiles(ALL_TILES)
    {
      if moves.None? {
        return None;
      }
      SendExchanges(gk, moves.value);
      moves := Some(SortByScore(moves.value));
      var m := SendLastLegal(gk, moves.value);
      r := Some(m);
    }
  }
}
