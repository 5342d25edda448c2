/** A hypothetical ("possi") board: the 15x15 squares of the game, a copy of
    the real board with one move replayed on it, and the rules engine that
    places, checks and scores words on it. */
module PossiBoard {
  import opened Common

  const DOUBLE_LETTER_SCORE: char := '-'
  const TRIPLE_LETTER_SCORE: char := '='
  const DOUBLE_WORD_SCORE: char := '+'
  const TRIPLE_WORD_SCORE: char := '#'
  const NO_PREMIUM: char := ' '

  /** `TILE_VALUES.get(c)`: the face value of a tile, 1 to 10 for a normal
      (lowercase) tile, 0 for a blank (an uppercase letter, or '_' in a hand),
      and None (Java's null) for any other character. */
  function TileValue(c: char): Option<int> {
    if IsLower(c) then Some(LetterValue(c))
    else if IsUpper(c) || c == BLANK then Some(0)
    else None
  }

  /** Face value of a normal tile. */
  function LetterValue(c: char): int
    requires IsLower(c)
  {
    match c
    case 'e' | 'a' | 'i' | 'o' | 'n' | 'r' | 't' | 'l' | 's' | 'u' => 1
    case 'd' | 'g' => 2
    case 'b' | 'c' | 'm' | 'p' => 3
    case 'f' | 'h' | 'v' | 'w' | 'y' => 4
    case 'k' => 5
    case 'j' | 'x' => 8
    case _ => 10 // 'q' and 'z'
  }

  /** Initial layout of bonus squares. */
  const LAYOUT: seq<string> := [
    "#  -   #   -  #",
    " +   =   =   + ",
    "  +   - -   +  ",
    "-  +   -   +  -",
    "    +     +    ",
    " =   =   =   = ",
    "  -   - -   -  ",
    "#  -   +   -  #",
    "  -   - -   -  ",
    " =   =   =   = ",
    "    +     +    ",
    "-  +   -   +  -",
    "  +   - -   +  ",
    " +   =   =   + ",
    "#  -   #   -  #"]

  /** The layout is a 15x15 board whose centre is a double-word square, the
      marker the engines use to recognise the first move. */
  lemma LayoutShape()
    ensures WellFormed(LAYOUT)
    ensures At(LAYOUT, CENTER) == DOUBLE_WORD_SCORE
    ensures forall r, c :: 0 <= r < WIDTH && 0 <= c < WIDTH ==> !IsTileLetter(LAYOUT[r][c])
  {
  }

  /** Every tile letter has a value: 1 to 10 for a normal tile, 0 for a blank. */
  lemma TileValuesCoverTiles(c: char)
    ensures IsLower(c) ==> TileValue(c).Some? && 1 <= TileValue(c).value <= 10
    ensures IsUpper(c) || c == BLANK ==> TileValue(c) == Some(0)
    ensures TileValue(c).Some? ==> IsTileLetter(c) || c == BLANK
  {
  }

  // ---------------------------------------------------------------------------
  // Placing a word

  /** Offset of `p` from `loc` along `d`, or -1 when `p` is not on that line. */
  function IndexOf(loc: Location, d: Axis, p: Location): int {
    if d == Horizontal then (if p.row == loc.row then p.col - loc.col else -1)
    else (if p.col == loc.col then p.row - loc.row else -1)
  }

  function PlacedCell(g: Grid, word: string, loc: Location, d: Axis, p: Location): char
    requires WellFormed(g) && OnBoard(p)
  {
    var i := IndexOf(loc, d, p);
    if 0 <= i < |word| && word[i] != ' ' then word[i] else At(g, p)
  }

  /** The board after writing every non-space character of `word` on successive
      squares from `loc` along `d`. */
  function Placed(g: Grid, word: string, loc: Location, d: Axis): (r: Grid)
    requires WellFormed(g)
    ensures WellFormed(r)
  {
    seq(WIDTH, row requires 0 <= row < WIDTH =>
      seq(WIDTH, col requires 0 <= col < WIDTH => PlacedCell(g, word, loc, d, Location(row, col))))
  }

  /** The squares a placement writes hold its characters; every other square,
      including those under a space, keeps its content. */
  lemma PlacedSquares(g: Grid, word: string, loc: Location, d: Axis, p: Location)
    requires WellFormed(g) && OnBoard(p)
    ensures forall i :: 0 <= i < |word| && p == Step(loc, d, i) && word[i] != ' ' ==>
              At(Placed(g, word, loc, d), p) == word[i]
    ensures (forall i :: 0 <= i < |word| && word[i] != ' ' ==> p != Step(loc, d, i)) ==>
              At(Placed(g, word, loc, d), p) == At(g, p)
  {
    var i := IndexOf(loc, d, p);
    if 0 <= i < |word| {
      assert p == Step(loc, d, i);
    }
  }

  // ---------------------------------------------------------------------------
  // Placement checks

  /** Character `i` of `word` lands on the board, on an occupied square exactly
      when it is a space (a tile already there). */
  predicate FitsAt(g: Grid, word: string, loc: Location, d: Axis, i: int)
    requires WellFormed(g) && 0 <= i < |word|
  {
    var p := Step(loc, d, i);
    OnBoard(p) && ((word[i] == ' ') == IsTileLetter(At(g, p)))
  }

  /** `canBePlacedOnBoard`: no tile just before or just after the word, no
      square off the board, no gap and no overlap. */
  predicate Placeable(g: Grid, word: string, loc: Location, d: Axis)
    requires WellFormed(g)
  {
    && !OccupiedAt(g, Antineighbor(loc, d))
    && (forall i :: 0 <= i < |word| ==> FitsAt(g, word, loc, d, i))
    && !OccupiedAt(g, Step(loc, d, |word|))
  }

  /** Every character of `word` lands on the board. */
  predicate InBounds(word: string, loc: Location, d: Axis) {
    forall i :: 0 <= i < |word| ==> OnBoard(Step(loc, d, i))
  }

  lemma PlaceableInBounds(g: Grid, word: string, loc: Location, d: Axis)
    requires WellFormed(g) && Placeable(g, word, loc, d)
    ensures InBounds(word, loc, d)
  {
    forall i | 0 <= i < |word|
      ensures OnBoard(Step(loc, d, i))
    {
      assert FitsAt(g, word, loc, d, i);
    }
  }

  /** Character `i` connects the word to the game: it reuses a tile, lies on the
      centre, or has an occupied neighbour across the word. */
  predicate ConnectsAt(g: Grid, word: string, loc: Location, d: Axis, i: int)
    requires WellFormed(g) && 0 <= i < |word|
  {
    var p := Step(loc, d, i);
    || word[i] == ' '
    || p == CENTER
    || OccupiedAt(g, Neighbor(p, Opposite(d)))
    || OccupiedAt(g, Antineighbor(p, Opposite(d)))
  }

  /** `wouldBeConnected`. */
  predicate Connected(g: Grid, word: string, loc: Location, d: Axis)
    requires WellFormed(g)
  {
    exists i :: 0 <= i < |word| && ConnectsAt(g, word, loc, d, i)
  }

  /** `k` squares back from `l` along `d`. */
  function Back(l: Location, d: Axis, k: int): Location {
    Step(l, d, -k)
  }

  /** Number of occupied squares immediately before `l` along `d`. */
  function RunLength(g: Grid, l: Location, d: Axis): (k: nat)
    requires WellFormed(g)
    ensures forall j :: 1 <= j <= k ==> OccupiedAt(g, Back(l, d, j))
    ensures !OccupiedAt(g, Back(l, d, k + 1))
    decreases Coord(l, d)
  {
    if OccupiedAt(g, Antineighbor(l, d)) then
      var k' := RunLength(g, Antineighbor(l, d), d);
      BackShift(l, d, k' + 1);
      forall j | 1 <= j <= k' + 1
        ensures OccupiedAt(g, Back(l, d, j))
      {
        BackShift(l, d, j - 1);
      }
      1 + k'
    else
      0
  }

  lemma BackShift(l: Location, d: Axis, j: int)
    ensures Back(Antineighbor(l, d), d, j) == Back(l, d, j + 1)
  {
  }

  /** `findStartOfWord`: the first square of the run of tiles that ends just
      before `l`, or `l` itself when the square before it is free. */
  function StartOfWord(g: Grid, l: Location, d: Axis): Location
    requires WellFormed(g)
  {
    Back(l, d, RunLength(g, l, d))
  }

  // ---------------------------------------------------------------------------
  // Dictionary checks

  /** The cross word spelt so far (`word`) followed by the letters read from
      `l` onwards along `d`: tiles, with `tile` standing in for the first free
      square, up to the next free square or the edge of the board. */
  function CrossWalk(g: Grid, l: Location, d: Axis, tile: char, tileUsed: bool, word: string): (r: string)
    requires WellFormed(g)
    ensures |word| <= |r|
    decreases WIDTH - Coord(l, d)
  {
    if !OnBoard(l) then word
    else if IsTileLetter(At(g, l)) then CrossWalk(g, Neighbor(l, d), d, tile, tileUsed, word + [At(g, l)])
    else if tileUsed then word
    else CrossWalk(g, Neighbor(l, d), d, tile, true, word + [tile])
  }

  /** The cross word through `l` along `d` when `tile` is played there. */
  function CrossWord(g: Grid, l: Location, d: Axis, tile: char): string
    requires WellFormed(g)
  {
    CrossWalk(g, StartOfWord(g, l, d), d, tile, false, [])
  }

  /** `isValidWord(location, direction, tile)`: the cross word through `l`
      is acceptable. */
  predicate CrossWordValid(g: Grid, dict: set<string>, l: Location, d: Axis, tile: char)
    requires WellFormed(g)
  {
    || tile == ' '
    || var w := CrossWord(g, l, d, tile);
       |w| == 1 || LowerString(w) in dict
  }

  /** The word spelt along the placement: board tiles where there are any,
      the played characters elsewhere. */
  function MainLetters(g: Grid, word: string, loc: Location, d: Axis): (r: string)
    requires WellFormed(g) && InBounds(word, loc, d)
    ensures |r| == |word|
  {
    seq(|word|, i requires 0 <= i < |word| =>
      var p := Step(loc, d, i);
      if IsTileLetter(At(g, p)) then At(g, p) else word[i])
  }

  /** `isValidWord(word, location, direction)`. */
  predicate MainWordValid(g: Grid, dict: set<string>, word: string, loc: Location, d: Axis)
    requires WellFormed(g) && InBounds(word, loc, d)
  {
    |word| >= 2 && LowerString(MainLetters(g, word, loc, d)) in dict
  }

  /** `wouldCreateOnlyLegalWords`. */
  predicate OnlyLegalWords(g: Grid, dict: set<string>, word: string, loc: Location, d: Axis)
    requires WellFormed(g) && InBounds(word, loc, d)
  {
    && MainWordValid(g, dict, word, loc, d)
    && forall i :: 0 <= i < |word| ==> CrossWordValid(g, dict, Step(loc, d, i), Opposite(d), word[i])
  }

  // ---------------------------------------------------------------------------
  // Legality

  const TOO_SHORT: string := "Word must be at least two letters long."
  const NO_NEW_TILE: string := "Word must contain at least one new tile."
  const HAND_SHORT: string := "Hand does not contain sufficient tiles to play word."
  const BAD_PLACEMENT: string := "Board placement incorrect (gaps, overlapping tiles, edge of board)."
  const INVALID_WORD: string := "Invalid word created."

  /** Outcome of `verifyLegality`: nothing, or the `IllegalMoveException` thrown. */
  datatype Verdict = Legal | Illegal(message: string)

  predicate HasNewTile(word: string) {
    exists i :: 0 <= i < |word| && word[i] != ' '
  }

  /** `canBeDrawnFromHand`: a hypothetical board lets any word be played. */
  predicate CanBeDrawnFromHand(word: string, hand: seq<char>) {
    true
  }

  /** `verifyLegality`: the checks in order, failing on the first. */
  function Legality(g: Grid, dict: set<string>, word: string, loc: Location, d: Axis, hand: seq<char>): Verdict
    requires WellFormed(g)
  {
    if |word| < 2 then Illegal(TOO_SHORT)
    else if !HasNewTile(word) then Illegal(NO_NEW_TILE)
    else if !CanBeDrawnFromHand(word, hand) then Illegal(HAND_SHORT)
    else if !Placeable(g, word, loc, d) then Illegal(BAD_PLACEMENT)
    else if !Connected(g, word, loc, d) then Illegal(BAD_PLACEMENT)
    else
      PlaceableInBounds(g, word, loc, d);
      if !OnlyLegalWords(g, dict, word, loc, d) then Illegal(INVALID_WORD)
      else Legal
  }

  // ---------------------------------------------------------------------------
  // Scoring

  function LetterMultiplier(square: char): int {
    if square == DOUBLE_LETTER_SCORE then 2 else if square == TRIPLE_LETTER_SCORE then 3 else 1
  }

  /** Word premium of a square; only meaningful when neither letter premium applies. */
  function WordMultiplier(square: char): int {
    if square == DOUBLE_LETTER_SCORE || square == TRIPLE_LETTER_SCORE then 1
    else if square == DOUBLE_WORD_SCORE then 2
    else if square == TRIPLE_WORD_SCORE then 3
    else 1
  }

  /** Score of the main word: `result` and `multiplier` for its first `i`
      characters, then the rest read square by square (None: a square off the
      board or a character without a value, on which `scoreWord` throws). A
      space adds the face value of the tile under it and no premium; a new
      tile gets its square's letter or word premium. */
  function MainTally(g: Grid, word: string, loc: Location, d: Axis, i: nat, result: int, multiplier: int): Option<int>
    requires WellFormed(g) && i <= |word|
    decreases |word| - i
  {
    if i == |word| then Some(result * multiplier)
    else
      var p := Step(loc, d, i);
      if !OnBoard(p) then None
      else
        var square := At(g, p);
        if word[i] == ' ' then
          match TileValue(square)
          case None => None
          case Some(v) => MainTally(g, word, loc, d, i + 1, result + v, multiplier)
        else
          match TileValue(word[i])
          case None => None
          case Some(v) =>
            MainTally(g, word, loc, d, i + 1, result + v * LetterMultiplier(square), multiplier * WordMultiplier(square))
  }

  /** `scoreWord(word, location, direction)`. */
  function MainScore(g: Grid, word: string, loc: Location, d: Axis): Option<int>
    requires WellFormed(g)
  {
    MainTally(g, word, loc, d, 0, 0, 1)
  }

  /** Score of the cross word: `score` and `multiplier` so far, then the
      tiles from `l` onwards up to the first free square, which `tile` takes
      with its premium (None: a character without a value). */
  function CrossTally(g: Grid, l: Location, d: Axis, tile: char, tileUsed: bool, score: int, multiplier: int): Option<int>
    requires WellFormed(g)
    decreases WIDTH - Coord(l, d)
  {
    if !OnBoard(l) then Some(score * multiplier)
    else
      var square := At(g, l);
      if IsTileLetter(square) then
        match TileValue(square)
        case None => None
        case Some(v) => CrossTally(g, Neighbor(l, d), d, tile, tileUsed, score + v, multiplier)
      else if tileUsed then Some(score * multiplier)
      else
        match TileValue(tile)
        case None => None
        case Some(v) =>
          CrossTally(g, Neighbor(l, d), d, tile, true, score + v * LetterMultiplier(square), multiplier * WordMultiplier(square))
  }

  /** `scoreWord(location, direction, tile)`: the cross word through `l`. It
      counts as a one-letter word, worth 0, whenever the square after the start
      of the run is free. */
  function CrossScore(g: Grid, l: Location, d: Axis, tile: char): Option<int>
    requires WellFormed(g)
  {
    var start := StartOfWord(g, l, d);
    var next := Neighbor(start, d);
    if OnBoard(next) && !IsTileLetter(At(g, next)) then Some(0)
    else CrossTally(g, start, d, tile, false, 0, 1)
  }

  const BINGO_BONUS: int := 50

  /** The rest of `score` after the main word: `result` so far, the cross
      word of every new tile from index `i` on, and 50 more when exactly seven
      tiles were played. */
  function ScoreRest(g: Grid, word: string, loc: Location, d: Axis, i: nat, result: int, tilesPlayed: int): Option<int>
    requires WellFormed(g) && i <= |word|
    decreases |word| - i
  {
    if i == |word| then Some(if tilesPlayed == 7 then result + BINGO_BONUS else result)
    else if word[i] == ' ' then ScoreRest(g, word, loc, d, i + 1, result, tilesPlayed)
    else
      match CrossScore(g, Step(loc, d, i), Opposite(d), word[i])
      case None => None
      case Some(c) => ScoreRest(g, word, loc, d, i + 1, result + c, tilesPlayed + 1)
  }

  /** `score`: the main word, every cross word, and 50 more for playing
      exactly seven tiles. */
  function TotalScore(g: Grid, word: string, loc: Location, d: Axis): Option<int>
    requires WellFormed(g)
  {
    match MainScore(g, word, loc, d)
    case None => None
    case Some(m) => ScoreRest(g, word, loc, d, 0, m, 0)
  }

  /** What `ScrabbleMove.play` leaves on a hypothetical board: a word is placed
      when it can be scored (otherwise the exception leaves the squares as
      they were); an exchange changes nothing. */
  function AfterMove(g: Grid, move: ScrabbleMove): (r: Grid)
    requires WellFormed(g)
    ensures WellFormed(r)
  {
    match move
    case PlayWord(w, l, d) => if TotalScore(g, w, l, d).Some? then Placed(g, w, l, d) else g
    case ExchangeTiles(_) => g
  }

  /** The `tmpScore` a move leaves behind: its score, or 0 for an exchange or
      a word that could not be scored. */
  function MovePoints(g: Grid, move: ScrabbleMove): int
    requires WellFormed(g)
  {
    match move
    case PlayWord(w, l, d) => if TotalScore(g, w, l, d).Some? then TotalScore(g, w, l, d).value else 0
    case ExchangeTiles(_) => 0
  }

  /** The top-left 15x15 squares of a character matrix. */
  ghost function Window(a: array2<char>): (g: Grid)
    reads a
    requires a.Length0 >= WIDTH && a.Length1 >= WIDTH
    ensures WellFormed(g)
    ensures forall r, c :: 0 <= r < WIDTH && 0 <= c < WIDTH ==> g[r][c] == a[r, c]
  {
    seq(WIDTH, r requires 0 <= r < WIDTH reads a =>
      seq(WIDTH, c requires 0 <= c < WIDTH reads a => a[r, c]))
  }

  /** The hand a hypothetical board reports for either player. */
  const FULL_HAND: seq<char> := ['a', 'e', 'i', 'o', 'u', 's', 'r', 't', 'l']

  /** The run counted by `RunLength` is the only one with its properties. */
  lemma RunLengthUnique(g: Grid, l: Location, d: Axis, m: nat)
    requires WellFormed(g)
    requires forall j :: 1 <= j <= m ==> OccupiedAt(g, Back(l, d, j))
    requires !OccupiedAt(g, Back(l, d, m + 1))
    ensures RunLength(g, l, d) == m
  {
  }

  /** A word that can be scored lies entirely on the board: scoring reads
      every square of it, so `play` only places words that fit. */
  lemma ScoredWordsFit(g: Grid, word: string, loc: Location, d: Axis)
    requires WellFormed(g) && MainScore(g, word, loc, d).Some?
    ensures InBounds(word, loc, d)
  {
    forall i | 0 <= i < |word|
      ensures OnBoard(Step(loc, d, i))
    {
      TallyReadsRest(g, word, loc, d, 0, 0, 1, i);
    }
  }

  /** A main-word tally that succeeds read every square from `i` on. */
  lemma {:induction false} TallyReadsRest(g: Grid, word: string, loc: Location, d: Axis, i: nat, result: int, multiplier: int, j: int)
    requires WellFormed(g) && i <= j < |word|
    requires MainTally(g, word, loc, d, i, result, multiplier).Some?
    ensures OnBoard(Step(loc, d, j))
    decreases |word| - i
  {
    if i < j {
      var square := At(g, Step(loc, d, i));
      if word[i] == ' ' {
        TallyReadsRest(g, word, loc, d, i + 1, result + TileValue(square).value, multiplier, j);
      } else {
        var v := TileValue(word[i]).value;
        TallyReadsRest(g, word, loc, d, i + 1, result + v * LetterMultiplier(square), multiplier * WordMultiplier(square), j);
      }
    }
  }

  // ---------------------------------------------------------------------------
  // Reference definitions of the scores

  /** Face value of a character, 0 when it has none. */
  function FaceValue(c: char): int {
    match TileValue(c)
    case None => 0
    case Some(v) => v
  }

  /** Points the character at index `j` of the main word adds to the letter
      sum: the face value of the tile already there, or the new tile's value
      with its letter premium. */
  function SquarePoints(g: Grid, word: string, loc: Location, d: Axis, j: int): int
    requires WellFormed(g) && 0 <= j < |word| && OnBoard(Step(loc, d, j))
  {
    var square := At(g, Step(loc, d, j));
    if word[j] == ' ' then FaceValue(square) else FaceValue(word[j]) * LetterMultiplier(square)
  }

  /** Word premium contributed by index `j` of the main word (new tiles only). */
  function SquareFactor(g: Grid, word: string, loc: Location, d: Axis, j: int): int
    requires WellFormed(g) && 0 <= j < |word| && OnBoard(Step(loc, d, j))
  {
    if word[j] == ' ' then 1 else WordMultiplier(At(g, Step(loc, d, j)))
  }

  /** Letter sum of the main word from index `i` on. */
  function LetterSum(g: Grid, word: string, loc: Location, d: Axis, i: nat): int
    requires WellFormed(g) && i <= |word| && InBounds(word, loc, d)
    decreases |word| - i
  {
    if i == |word| then 0 else SquarePoints(g, word, loc, d, i) + LetterSum(g, word, loc, d, i + 1)
  }

  /** Product of the word premiums of the main word from index `i` on. */
  function WordFactor(g: Grid, word: string, loc: Location, d: Axis, i: nat): int
    requires WellFormed(g) && i <= |word| && InBounds(word, loc, d)
    decreases |word| - i
  {
    if i == |word| then 1 else SquareFactor(g, word, loc, d, i) * WordFactor(g, word, loc, d, i + 1)
  }

  lemma {:induction false} MainTallyFormula(g: Grid, word: string, loc: Location, d: Axis, i: nat, result: int, multiplier: int)
    requires WellFormed(g) && i <= |word| && InBounds(word, loc, d)
    requires MainTally(g, word, loc, d, i, result, multiplier).Some?
    ensures MainTally(g, word, loc, d, i, result, multiplier).value
            == (result + LetterSum(g, word, loc, d, i)) * (multiplier * WordFactor(g, word, loc, d, i))
    decreases |word| - i
  {
    if i < |word| {
      var a := SquarePoints(g, word, loc, d, i);
      var f := SquareFactor(g, word, loc, d, i);
      var rest := WordFactor(g, word, loc, d, i + 1);
      var sum := LetterSum(g, word, loc, d, i + 1);
      assert MainTally(g, word, loc, d, i, result, multiplier) == MainTally(g, word, loc, d, i + 1, result + a, multiplier * f);
      MainTallyFormula(g, word, loc, d, i + 1, result + a, multiplier * f);
      MulAssoc(multiplier, f, rest);
      assert LetterSum(g, word, loc, d, i) == a + sum;
      assert WordFactor(g, word, loc, d, i) == f * rest;
    }
  }

  lemma MulAssoc(a: int, b: int, c: int)
    ensures (a * b) * c == a * (b * c)
  {
  }

  /** The main word scores its letter sum (face values of the tiles already
      there, letter premiums on new tiles) times the product of the word
      premiums under its new tiles. */
  lemma MainScoreFormula(g: Grid, word: string, loc: Location, d: Axis)
    requires WellFormed(g) && MainScore(g, word, loc, d).Some?
    ensures InBounds(word, loc, d)
    ensures MainScore(g, word, loc, d).value == LetterSum(g, word, loc, d, 0) * WordFactor(g, word, loc, d, 0)
  {
    ScoredWordsFit(g, word, loc, d);
    MainTallyFormula(g, word, loc, d, 0, 0, 1);
  }

  /** Number of new tiles (non-space characters) of `word` from index `i` on. */
  function NewTiles(word: string, i: nat): nat
    requires i <= |word|
    decreases |word| - i
  {
    if i == |word| then 0 else (if word[i] != ' ' then 1 else 0) + NewTiles(word, i + 1)
  }

  /** Sum of the cross-word scores of the new tiles of `word` from index `i`
      on (None when one of them cannot be scored). */
  function CrossSum(g: Grid, word: string, loc: Location, d: Axis, i: nat): Option<int>
    requires WellFormed(g) && i <= |word|
    decreases |word| - i
  {
    if i == |word| then Some(0)
    else if word[i] == ' ' then CrossSum(g, word, loc, d, i + 1)
    else
      match CrossScore(g, Step(loc, d, i), Opposite(d), word[i])
      case None => None
      case Some(c) =>
        match CrossSum(g, word, loc, d, i + 1)
        case None => None
        case Some(t) => Some(c + t)
  }

  lemma {:induction false} ScoreRestFormula(g: Grid, word: string, loc: Location, d: Axis, i: nat, result: int, tilesPlayed: int)
    requires WellFormed(g) && i <= |word|
    ensures ScoreRest(g, word, loc, d, i, result, tilesPlayed).Some? <==> CrossSum(g, word, loc, d, i).Some?
    ensures CrossSum(g, word, loc, d, i).Some? ==>
              ScoreRest(g, word, loc, d, i, result, tilesPlayed).value
              == result + CrossSum(g, word, loc, d, i).value
                 + (if tilesPlayed + NewTiles(word, i) == 7 then BINGO_BONUS else 0)
    decreases |word| - i
  {
    if i < |word| {
      if word[i] == ' ' {
        ScoreRestFormula(g, word, loc, d, i + 1, result, tilesPlayed);
      } else {
        match CrossScore(g, Step(loc, d, i), Opposite(d), word[i])
        case None =>
        case Some(c) => ScoreRestFormula(g, word, loc, d, i + 1, result + c, tilesPlayed + 1);
      }
    }
  }

  /** `score` is the main word plus the cross word of every new tile, plus 50
      exactly when seven new tiles are played; it fails when any part does. */
  lemma ScoreFormula(g: Grid, word: string, loc: Location, d: Axis)
    requires WellFormed(g)
    ensures TotalScore(g, word, loc, d).Some? <==> MainScore(g, word, loc, d).Some? && CrossSum(g, word, loc, d, 0).Some?
    ensures TotalScore(g, word, loc, d).Some? ==>
              TotalScore(g, word, loc, d).value
              == MainScore(g, word, loc, d).value + CrossSum(g, word, loc, d, 0).value
                 + (if NewTiles(word, 0) == 7 then BINGO_BONUS else 0)
  {
    if MainScore(g, word, loc, d).Some? {
      ScoreRestFormula(g, word, loc, d, 0, MainScore(g, word, loc, d).value, 0);
    }
  }

  /** A cross word whose run before the new square is a single tile scores 0,
      although it has at least two letters: the square after the start of the
      run is the free square the new tile goes on. */
  lemma SingleTileBeforeScoresZero(g: Grid, l: Location, d: Axis, tile: char)
    requires WellFormed(g) && OnBoard(l) && !IsTileLetter(At(g, l))
    requires OccupiedAt(g, Antineighbor(l, d)) && !OccupiedAt(g, Back(l, d, 2))
    ensures |CrossWord(g, l, d, tile)| >= 2
    ensures CrossScore(g, l, d, tile) == Some(0)
  {
    assert Back(l, d, 1) == Antineighbor(l, d);
    RunLengthUnique(g, l, d, 1);
    var start := Antineighbor(l, d);
    assert Neighbor(start, d) == l;
    var a := At(g, start);
    assert CrossWord(g, l, d, tile) == CrossWalk(g, start, d, tile, false, []);
    assert CrossWalk(g, start, d, tile, false, []) == CrossWalk(g, l, d, tile, false, [] + [a]);
    assert [] + [a] == [a] && [a] + [tile] == [a, tile];
    assert CrossWalk(g, l, d, tile, false, [a]) == CrossWalk(g, Neighbor(l, d), d, tile, true, [a, tile]);
  }

  /** A new tile on the last square of a line with a free square before it
      forms no cross word, yet scores its own value with its premiums: the
      one-letter test looks past the edge of the board. */
  lemma LoneTileAtEdgeScores(g: Grid, l: Location, d: Axis, tile: char)
    requires WellFormed(g) && OnBoard(l) && Coord(l, d) == WIDTH - 1 && !IsTileLetter(At(g, l))
    requires !OccupiedAt(g, Antineighbor(l, d)) && TileValue(tile).Some?
    ensures CrossWord(g, l, d, tile) == [tile]
    ensures CrossScore(g, l, d, tile)
            == Some(TileValue(tile).value * LetterMultiplier(At(g, l)) * WordMultiplier(At(g, l)))
  {
    assert Back(l, d, 1) == Antineighbor(l, d);
    RunLengthUnique(g, l, d, 0);
    assert Back(l, d, 0) == l;
    var next := Neighbor(l, d);
    assert !OnBoard(next);
    assert [] + [tile] == [tile];
    assert CrossWord(g, l, d, tile) == CrossWalk(g, next, d, tile, true, [tile]);
    var square := At(g, l);
    var v := TileValue(tile).value;
    assert CrossScore(g, l, d, tile) == CrossTally(g, l, d, tile, false, 0, 1);
    assert CrossTally(g, l, d, tile, false, 0, 1)
           == CrossTally(g, next, d, tile, true, 0 + v * LetterMultiplier(square), 1 * WordMultiplier(square));
  }

  /** A new tile with free squares on both sides along the cross direction
      forms no cross word and scores 0 for it. */
  lemma NoCrossWordScoresZero(g: Grid, l: Location, d: Axis, tile: char)
    requires WellFormed(g) && OnBoard(l) && !IsTileLetter(At(g, l))
    requires !OccupiedAt(g, Antineighbor(l, d)) && OnBoard(Neighbor(l, d)) && !OccupiedAt(g, Neighbor(l, d))
    ensures CrossWord(g, l, d, tile) == [tile]
    ensures CrossScore(g, l, d, tile) == Some(0)
  {
    assert Back(l, d, 1) == Antineighbor(l, d);
    RunLengthUnique(g, l, d, 0);
    assert Back(l, d, 0) == l;
    assert [] + [tile] == [tile];
    assert CrossWord(g, l, d, tile) == CrossWalk(g, Neighbor(l, d), d, tile, true, [tile]);
  }

  /** Sum of the face values of the letters of `w`. */
  function WordValue(w: string): int {
    if w == [] then 0 else WordValue(w[..|w| - 1]) + FaceValue(w[|w| - 1])
  }

  lemma WordValueAppend(w: string, c: char)
    ensures WordValue(w + [c]) == WordValue(w) + FaceValue(c)
  {
    assert (w + [c])[..|w|] == w;
  }

  /** Reading an occupied square adds its face value to the score. */
  lemma TallyOverTile(g: Grid, p: Location, d: Axis, tile: char, tileUsed: bool, score: int, multiplier: int)
    requires WellFormed(g) && OccupiedAt(g, p)
    ensures CrossTally(g, p, d, tile, tileUsed, score, multiplier)
            == CrossTally(g, Neighbor(p, d), d, tile, tileUsed, score + FaceValue(At(g, p)), multiplier)
  {
    TileValuesCoverTiles(At(g, p));
  }

  /** Reading an occupied square adds its letter to the cross word. */
  lemma WalkOverTile(g: Grid, p: Location, d: Axis, tile: char, tileUsed: bool, w: string)
    requires WellFormed(g) && OccupiedAt(g, p)
    ensures CrossWalk(g, p, d, tile, tileUsed, w) == CrossWalk(g, Neighbor(p, d), d, tile, tileUsed, w + [At(g, p)])
  {
  }

  /** After the new tile: the walk adds the face value of every tile up to
      the next free square, and the multiplier is left as it is. */
  lemma {:induction false} TallyAfterTile(g: Grid, p: Location, d: Axis, tile: char, score: int, multiplier: int, w: string)
    requires WellFormed(g)
    ensures CrossTally(g, p, d, tile, true, score, multiplier)
            == Some((score + WordValue(CrossWalk(g, p, d, tile, true, w)) - WordValue(w)) * multiplier)
    decreases WIDTH - Coord(p, d)
  {
    if OccupiedAt(g, p) {
      var square := At(g, p);
      var next := Neighbor(p, d);
      var fv := FaceValue(square);
      TallyOverTile(g, p, d, tile, true, score, multiplier);
      WalkOverTile(g, p, d, tile, true, w);
      TallyAfterTile(g, next, d, tile, score + fv, multiplier, w + [square]);
      WordValueAppend(w, square);
      var walk := CrossWalk(g, p, d, tile, true, w);
      var x := score + WordValue(walk) - WordValue(w);
      assert score + fv + WordValue(walk) - WordValue(w + [square]) == x;
    } else {
      TallyStops(g, p, d, tile, score, multiplier, w);
      assert score + WordValue(w) - WordValue(w) == score;
    }
  }

  /** With the tile used, a free square or the edge ends the walk. */
  lemma TallyStops(g: Grid, p: Location, d: Axis, tile: char, score: int, multiplier: int, w: string)
    requires WellFormed(g) && !OccupiedAt(g, p)
    ensures CrossTally(g, p, d, tile, true, score, multiplier) == Some(score * multiplier)
    ensures CrossWalk(g, p, d, tile, true, w) == w
  {
  }

  lemma Distribute(v: int, m: int)
    ensures v * (m - 1) == v * m - v
  {
  }

  /** The free square takes the tile, with its premiums. */
  lemma TallyAtFree(g: Grid, l: Location, d: Axis, tile: char, score: int, multiplier: int)
    requires WellFormed(g) && OnBoard(l) && !IsTileLetter(At(g, l)) && TileValue(tile).Some?
    ensures CrossTally(g, l, d, tile, false, score, multiplier)
            == CrossTally(g, Neighbor(l, d), d, tile, true, score + TileValue(tile).value * LetterMultiplier(At(g, l)),
                          multiplier * WordMultiplier(At(g, l)))
  {
  }

  lemma TallyAtTile(g: Grid, p: Location, d: Axis, tile: char, score: int, w: string)
    requires WellFormed(g) && TileValue(tile).Some?
    requires OnBoard(p) && !IsTileLetter(At(g, p))
    ensures var v := TileValue(tile).value;
            CrossTally(g, p, d, tile, false, score, 1)
            == Some((score + WordValue(CrossWalk(g, p, d, tile, false, w)) - WordValue(w) + v * (LetterMultiplier(At(g, p)) - 1))
                    * WordMultiplier(At(g, p)))
  {
    var square := At(g, p);
    var v := TileValue(tile).value;
    var next := Neighbor(p, d);
    var lm := LetterMultiplier(square);
    var wm := WordMultiplier(square);
    TallyAtFree(g, p, d, tile, score, 1);
    assert 1 * wm == wm;
    assert CrossWalk(g, p, d, tile, false, w) == CrossWalk(g, next, d, tile, true, w + [tile]);
    TallyAfterTile(g, next, d, tile, score + v * lm, wm, w + [tile]);
    WordValueAppend(w, tile);
    assert FaceValue(tile) == v;
    Distribute(v, lm);
  }

  /** Before the new tile: the `n` tiles from `p` up to the free square `l`
      add their face values, then the tile gets its premiums. */
  lemma {:induction false} TallyBeforeTile(g: Grid, p: Location, d: Axis, n: nat, l: Location, tile: char, score: int, w: string)
    requires WellFormed(g) && TileValue(tile).Some?
    requires forall j :: 0 <= j < n ==> OccupiedAt(g, Step(p, d, j))
    requires l == Step(p, d, n) && OnBoard(l) && !IsTileLetter(At(g, l))
    ensures var v := TileValue(tile).value;
            CrossTally(g, p, d, tile, false, score, 1)
            == Some((score + WordValue(CrossWalk(g, p, d, tile, false, w)) - WordValue(w) + v * (LetterMultiplier(At(g, l)) - 1))
                    * WordMultiplier(At(g, l)))
    decreases n
  {
    if n == 0 {
      assert l == p;
      TallyAtTile(g, p, d, tile, score, w);
    } else {
      assert Step(p, d, 0) == p;
      var sq := At(g, p);
      var fv := FaceValue(sq);
      var next := Neighbor(p, d);
      TallyOverTile(g, p, d, tile, false, score, 1);
      WalkOverTile(g, p, d, tile, false, w);
      forall j | 0 <= j < n - 1
        ensures OccupiedAt(g, Step(next, d, j))
      {
        assert Step(next, d, j) == Step(p, d, j + 1);
      }
      assert l == Step(next, d, n - 1);
      TallyBeforeTile(g, next, d, n - 1, l, tile, score + fv, w + [sq]);
      WordValueAppend(w, sq);
      var walk := CrossWalk(g, p, d, tile, false, w);
      var bonus := TileValue(tile).value * (LetterMultiplier(At(g, l)) - 1);
      assert score + fv + WordValue(walk) - WordValue(w + [sq]) + bonus
             == score + WordValue(walk) - WordValue(w) + bonus;
    }
  }

  /** The run from the start of the word up to `l` is all tiles. */
  lemma RunFromStart(g: Grid, l: Location, d: Axis)
    requires WellFormed(g)
    ensures var k := RunLength(g, l, d);
            && (forall j :: 0 <= j < k ==> OccupiedAt(g, Step(StartOfWord(g, l, d), d, j)))
            && Step(StartOfWord(g, l, d), d, k) == l
  {
    var k := RunLength(g, l, d);
    var start := StartOfWord(g, l, d);
    forall j | 0 <= j < k
      ensures OccupiedAt(g, Step(start, d, j))
    {
      assert Step(start, d, j) == Back(l, d, k - j);
    }
  }

  /** A cross word that is really formed (two or more tiles before the new
      square, or none before and a tile or the edge after it) scores the face
      values of its letters, with the new tile's letter premium, times the new
      tile's word premium. */
  lemma CrossScoreFormula(g: Grid, l: Location, d: Axis, tile: char)
    requires WellFormed(g) && OnBoard(l) && !IsTileLetter(At(g, l)) && TileValue(tile).Some?
    requires || (OccupiedAt(g, Back(l, d, 1)) && OccupiedAt(g, Back(l, d, 2)))
             || (!OccupiedAt(g, Back(l, d, 1)) && !(OnBoard(Neighbor(l, d)) && !IsTileLetter(At(g, Neighbor(l, d)))))
    ensures var square := At(g, l);
            var v := TileValue(tile).value;
            CrossScore(g, l, d, tile)
            == Some((WordValue(CrossWord(g, l, d, tile)) + v * (LetterMultiplier(square) - 1)) * WordMultiplier(square))
  {
    var k := RunLength(g, l, d);
    var start := StartOfWord(g, l, d);
    var next := Neighbor(start, d);
    RunFromStart(g, l, d);
    if k == 0 {
      assert start == l;
    } else {
      assert OccupiedAt(g, Back(l, d, 1));
      assert OccupiedAt(g, Back(l, d, 2));
      assert k != 1;
      assert next == Back(l, d, k - 1);
      assert OccupiedAt(g, next);
    }
    assert CrossScore(g, l, d, tile) == CrossTally(g, start, d, tile, false, 0, 1);
    TallyBeforeTile(g, start, d, k, l, tile, 0, []);
    assert WordValue([]) == 0;
  }

  // ---------------------------------------------------------------------------
  // Properties of legality

  /** On a board without tiles, a placement that fits is connected exactly
      when it covers the centre. */
  lemma FirstMoveMustCoverCenter(g: Grid, word: string, loc: Location, d: Axis)
    requires WellFormed(g)
    requires forall r, c :: 0 <= r < WIDTH && 0 <= c < WIDTH ==> !IsTileLetter(g[r][c])
    requires Placeable(g, word, loc, d)
    ensures Connected(g, word, loc, d) <==> exists i :: 0 <= i < |word| && Step(loc, d, i) == CENTER
  {
    if Connected(g, word, loc, d) {
      var i :| 0 <= i < |word| && ConnectsAt(g, word, loc, d, i);
      assert FitsAt(g, word, loc, d, i);
      assert Step(loc, d, i) == CENTER;
    }
    if exists i :: 0 <= i < |word| && Step(loc, d, i) == CENTER {
      var i :| 0 <= i < |word| && Step(loc, d, i) == CENTER;
      assert ConnectsAt(g, word, loc, d, i);
    }
  }

  /** Every word of the dictionary is made of lowercase letters. */
  predicate LowercaseDictionary(dict: set<string>) {
    forall w, k :: w in dict && 0 <= k < |w| ==> IsLower(w[k])
  }

  lemma LowerMeansLetter(c: char)
    requires IsLower(ToLower(c))
    ensures IsTileLetter(c)
  {
  }

  /** A legal play, once placed, fills a run of squares bounded by free squares
      (or the edges) with exactly the main word that was looked up. */
  lemma LegalPlayLaysMainWord(g: Grid, dict: set<string>, word: string, loc: Location, d: Axis, hand: seq<char>)
    requires WellFormed(g) && LowercaseDictionary(dict)
    requires Legality(g, dict, word, loc, d, hand) == Legal
    ensures InBounds(word, loc, d)
    ensures LowerString(MainLetters(g, word, loc, d)) in dict
    ensures forall i :: 0 <= i < |word| ==>
              OccupiedAt(Placed(g, word, loc, d), Step(loc, d, i))
              && At(Placed(g, word, loc, d), Step(loc, d, i)) == MainLetters(g, word, loc, d)[i]
    ensures !OccupiedAt(Placed(g, word, loc, d), Antineighbor(loc, d))
    ensures !OccupiedAt(Placed(g, word, loc, d), Step(loc, d, |word|))
  {
    PlaceableInBounds(g, word, loc, d);
    var h := Placed(g, word, loc, d);
    var m := MainLetters(g, word, loc, d);
    var lm := LowerString(m);
    assert lm in dict;
    forall i | 0 <= i < |word|
      ensures OccupiedAt(h, Step(loc, d, i)) && At(h, Step(loc, d, i)) == m[i]
    {
      var p := Step(loc, d, i);
      assert FitsAt(g, word, loc, d, i);
      PlacedSquares(g, word, loc, d, p);
      assert IsLower(lm[i]);
      LowerMeansLetter(m[i]);
    }
    PlacedEnds(g, word, loc, d);
  }

  /** Placing a word leaves the squares just before and just after it as
      they were: free, when the placement passed `canBePlacedOnBoard`. */
  lemma PlacedEnds(g: Grid, word: string, loc: Location, d: Axis)
    requires WellFormed(g) && Placeable(g, word, loc, d)
    ensures !OccupiedAt(Placed(g, word, loc, d), Antineighbor(loc, d))
    ensures !OccupiedAt(Placed(g, word, loc, d), Step(loc, d, |word|))
  {
    var before := Antineighbor(loc, d);
    if OnBoard(before) {
      PlacedSquares(g, word, loc, d, before);
    }
    var after := Step(loc, d, |word|);
    if OnBoard(after) {
      PlacedSquares(g, word, loc, d, after);
    }
  }

  // ---------------------------------------------------------------------------
  // The board object

  class PossiBoard {
    /** Squares on the board (whether occupied by tiles or not). */
    var squares: array2<char>
    var value: int
    var tmpScore: int

    /** The squares as a value. */
    ghost var grid: Grid

    ghost predicate Valid()
      reads this`squares, this`grid, squares
    {
      && squares.Length0 == WIDTH && squares.Length1 == WIDTH
      && WellFormed(grid)
      && forall r, c :: 0 <= r < WIDTH && 0 <= c < WIDTH ==> grid[r][c] == squares[r, c]
    }

    /** A blank board: every square holds its premium symbol. */
    constructor ()
      ensures Valid() && fresh(squares)
      ensures grid == LAYOUT
      ensures value == 0 && tmpScore == 0
    {
      LayoutShape();
      var a := new char[WIDTH, WIDTH];
      var r := 0;
      while r < WIDTH
        invariant 0 <= r <= WIDTH
        invariant forall i, j :: 0 <= i < r && 0 <= j < WIDTH ==> a[i, j] == LAYOUT[i][j]
      {
        var c := 0;
        while c < WIDTH
          invariant 0 <= c <= WIDTH
          invariant forall i, j :: 0 <= i < r && 0 <= j < WIDTH ==> a[i, j] == LAYOUT[i][j]
          invariant forall j :: 0 <= j < c ==> a[r, j] == LAYOUT[r][j]
        {
          a[r, c] := LAYOUT[r][c];
          c := c + 1;
        }
        r := r + 1;
      }
      squares := a;
      grid := LAYOUT;
      value := 0;
      tmpScore := 0;
    }

    /** Places word on board at the specified location and direction. */
    method PlaceWord(word: string, location: Location, direction: Axis)
      requires Valid()
      requires forall i :: 0 <= i < |word| && word[i] != ' ' ==> OnBoard(Step(location, direction, i))
      modifies this`grid, squares
      ensures Valid()
      ensures grid == Placed(old(grid), word, location, direction)
    {
      ghost var g0 := grid;
      var l := location;
      var i := 0;
      while i < |word|
        invariant 0 <= i <= |word| && l == Step(location, direction, i)
        invariant forall r, c :: 0 <= r < WIDTH && 0 <= c < WIDTH ==>
                    squares[r, c] == PlacedCell(g0, word[..i], location, direction, Location(r, c))
      {
        if word[i] != ' ' {
          squares[l.row, l.col] := word[i];
        }
        l := Neighbor(l, direction);
        i := i + 1;
      }
      assert word[..|word|] == word;
      grid := Placed(g0, word, location, direction);
    }

    function GetSquare(l: Location): (c: char)
      reads this`squares, this`grid, squares
      requires Valid() && OnBoard(l)
    {
      squares[l.row, l.col]
    }

    predicate IsOccupied(l: Location)
      reads this`squares, this`grid, squares
      requires Valid() && OnBoard(l)
    {
      IsTileLetter(squares[l.row, l.col])
    }

    /** Whether `word` fits the board at `location` along `direction`. */
    method CanBePlacedOnBoard(word: string, location: Location, direction: Axis) returns (ok: bool)
      requires Valid()
      ensures ok == Placeable(grid, word, location, direction)
    {
      ghost var g := grid;
      var before := Antineighbor(location, direction);
      if OnBoard(before) && IsOccupied(before) {
        return false;
      }
      var l := location;
      var i := 0;
      while i < |word|
        invariant 0 <= i <= |word| && l == Step(location, direction, i)
        invariant forall j :: 0 <= j < i ==> FitsAt(g, word, location, direction, j)
      {
        if !OnBoard(l) {
          assert !FitsAt(g, word, location, direction, i);
          return false;
        }
        var current := GetSquare(l);
        if (word[i] == ' ') != IsTileLetter(current) {
          assert !FitsAt(g, word, location, direction, i);
          return false;
        }
        l := Neighbor(l, direction);
        i := i + 1;
      }
      if OnBoard(l) && IsOccupied(l) {
        return false;
      }
      return true;
    }

    /** Whether `word` would touch the tiles already played (or the centre). */
    method WouldBeConnected(word: string, location: Location, direction: Axis) returns (ok: bool)
      requires Valid()
      ensures ok == Connected(grid, word, location, direction)
    {
      ghost var g := grid;
      var cross := Opposite(direction);
      var l := location;
      var i := 0;
      while i < |word|
        invariant 0 <= i <= |word| && l == Step(location, direction, i)
        invariant forall j :: 0 <= j < i ==> !ConnectsAt(g, word, location, direction, j)
      {
        if word[i] == ' ' || l == CENTER {
          assert ConnectsAt(g, word, location, direction, i);
          return true;
        }
        var after := Neighbor(l, cross);
        if OnBoard(after) && IsOccupied(after) {
          assert ConnectsAt(g, word, location, direction, i);
          return true;
        }
        var before := Antineighbor(l, cross);
        if OnBoard(before) && IsOccupied(before) {
          assert ConnectsAt(g, word, location, direction, i);
          return true;
        }
        l := Neighbor(l, direction);
        i := i + 1;
      }
      return false;
    }

    /** Backs up from `location` over the tiles before it. */
    method FindStartOfWord(location: Location, direction: Axis) returns (start: Location)
      requires Valid()
      ensures start == StartOfWord(grid, location, direction)
    {
      ghost var g := grid;
      var l := Antineighbor(location, direction);
      ghost var k := 1;
      while OnBoard(l) && IsOccupied(l)
        invariant 1 <= k && l == Back(location, direction, k)
        invariant forall j :: 1 <= j < k ==> OccupiedAt(g, Back(location, direction, j))
        decreases Coord(l, direction)
      {
        l := Antineighbor(l, direction);
        k := k + 1;
      }
      RunLengthUnique(g, location, direction, k - 1);
      start := Neighbor(l, direction);
    }

    /** `isValidWord(location, direction, tile)`: walks the cross word through
        `location` and looks it up. */
    method IsValidCrossWord(dict: set<string>, location: Location, direction: Axis, tile: char) returns (ok: bool)
      requires Valid()
      ensures ok == CrossWordValid(grid, dict, location, direction, tile)
    {
      if tile == ' ' {
        return true;
      }
      ghost var g := grid;
      var l := FindStartOfWord(location, direction);
      var word: string := [];
      var tileUsed := false;
      while OnBoard(l)
        invariant CrossWalk(g, l, direction, tile, tileUsed, word) == CrossWord(g, location, direction, tile)
        decreases WIDTH - Coord(l, direction)
      {
        if IsOccupied(l) {
          word := word + [GetSquare(l)];
        } else if tileUsed {
          break;
        } else {
          word := word + [tile];
          tileUsed := true;
        }
        l := Neighbor(l, direction);
      }
      if |word| == 1 {
        return true;
      }
      return LowerString(word) in dict;
    }

    /** `isValidWord(word, location, direction)`: the main word, read through
        the tiles already on the board. */
    method IsValidMainWord(dict: set<string>, word: string, location: Location, direction: Axis) returns (ok: bool)
      requires Valid() && InBounds(word, location, direction)
      ensures ok == MainWordValid(grid, dict, word, location, direction)
    {
      if |word| < 2 {
        return false;
      }
      ghost var g := grid;
      var letters := new char[|word|];
      var l := location;
      var i := 0;
      while i < |word|
        invariant 0 <= i <= |word| && l == Step(location, direction, i)
        invariant forall j :: 0 <= j < i ==> letters[j] == MainLetters(g, word, location, direction)[j]
      {
        if IsOccupied(l) {
          letters[i] := GetSquare(l);
        } else {
          letters[i] := word[i];
        }
        l := Neighbor(l, direction);
        i := i + 1;
      }
      assert letters[..] == MainLetters(g, word, location, direction);
      return LowerString(letters[..]) in dict;
    }

    /** Whether the main word and every cross word it creates are words. */
    method WouldCreateOnlyLegalWords(dict: set<string>, word: string, location: Location, direction: Axis) returns (ok: bool)
      requires Valid() && InBounds(word, location, direction)
      ensures ok == OnlyLegalWords(grid, dict, word, location, direction)
    {
      ok := IsValidMainWord(dict, word, location, direction);
      if !ok {
        return;
      }
      ok := CrossWordsValid(dict, word, location, direction);
    }

    /** The loop of `wouldCreateOnlyLegalWords`: the cross word of every
        character is acceptable. */
    method CrossWordsValid(dict: set<string>, word: string, location: Location, direction: Axis) returns (ok: bool)
      requires Valid()
      ensures ok == forall i :: 0 <= i < |word| ==> CrossWordValid(grid, dict, Step(location, direction, i), Opposite(direction), word[i])
    {
      ghost var g := grid;
      var cross := Opposite(direction);
      var l := location;
      var i := 0;
      while i < |word|
        invariant 0 <= i <= |word| && l == Step(location, direction, i)
        invariant forall j :: 0 <= j < i ==> CrossWordValid(g, dict, Step(location, direction, j), cross, word[j])
      {
        ok := IsValidCrossWord(dict, l, cross, word[i]);
        if !ok {
          return;
        }
        l := Neighbor(l, direction);
        i := i + 1;
      }
      return true;
    }

    /** `verifyLegality`: Legal, or the message of the exception thrown. */
    method VerifyLegality(dict: set<string>, word: string, location: Location, direction: Axis, hand: seq<char>)
      returns (v: Verdict)
      requires Valid()
      ensures v == Legality(grid, dict, word, location, direction, hand)
    {
      ghost var g := grid;
      if |word| < 2 {
        return Illegal(TOO_SHORT);
      }
      var containsNonspace := false;
      var i := 0;
      while i < |word|
        invariant 0 <= i <= |word|
        invariant forall j :: 0 <= j < i ==> word[j] == ' '
      {
        if word[i] != ' ' {
          containsNonspace := true;
          break;
        }
        i := i + 1;
      }
      if !containsNonspace {
        return Illegal(NO_NEW_TILE);
      }
      if !CanBeDrawnFromHand(word, hand) {
        return Illegal(HAND_SHORT);
      }
      var placeable := CanBePlacedOnBoard(word, location, direction);
      if !placeable {
        return Illegal(BAD_PLACEMENT);
      }
      var connected := WouldBeConnected(word, location, direction);
      if !connected {
        return Illegal(BAD_PLACEMENT);
      }
      PlaceableInBounds(g, word, location, direction);
      var legal := WouldCreateOnlyLegalWords(dict, word, location, direction);
      if !legal {
        return Illegal(INVALID_WORD);
      }
      return Legal;
    }

    /** The premium a new tile of value `v` earns on `square`: its points
        (doubled or tripled on a letter square) and the factor applied to the
        word (2 or 3 on a word square, 1 elsewhere). */
    static method Premium(square: char, v: int) returns (points: int, factor: int)
      ensures points == v * LetterMultiplier(square)
      ensures factor == WordMultiplier(square)
      ensures factor == 1 || square == DOUBLE_WORD_SCORE || square == TRIPLE_WORD_SCORE
    {
      points := v;
      factor := 1;
      if square == DOUBLE_LETTER_SCORE {
        points := points + v;
      } else if square == TRIPLE_LETTER_SCORE {
        points := points + 2 * v;
      } else if square == DOUBLE_WORD_SCORE {
        factor := factor * 2;
      } else if square == TRIPLE_WORD_SCORE {
        factor := factor * 3;
      }
    }

    /** `scoreWord(location, direction, tile)`: the cross word through
        `location`, or None when a character has no value. */
    method ScoreCrossWord(location: Location, direction: Axis, tile: char) returns (s: Option<int>)
      requires Valid()
      ensures s == CrossScore(grid, location, direction, tile)
    {
      ghost var g := grid;
      var score := 0;
      var multiplier := 1;
      var l := FindStartOfWord(location, direction);
      ghost var start := l;
      var next := Neighbor(l, direction);
      if OnBoard(next) && !IsOccupied(next) {
        return Some(0);
      }
      var tileUsed := false;
      while OnBoard(l)
        invariant CrossTally(g, l, direction, tile, tileUsed, score, multiplier)
                  == CrossTally(g, start, direction, tile, false, 0, 1)
        decreases WIDTH - Coord(l, direction)
      {
        var square := GetSquare(l);
        if IsOccupied(l) {
          var v := TileValue(square);
          if v.None? {
            return None;
          }
          TallyOverTile(g, l, direction, tile, tileUsed, score, multiplier);
          score := score + v.value;
        } else if tileUsed {
          TallyStops(g, l, direction, tile, score, multiplier, []);
          break;
        } else {
          var v := TileValue(tile);
          if v.None? {
            return None;
          }
          TallyAtFree(g, l, direction, tile, score, multiplier);
          var bonus := GetSquare(l);
          var points, factor := Premium(bonus, v.value);
          score := score + points;
          multiplier := multiplier * factor;
          tileUsed := true;
        }
        l := Neighbor(l, direction);
      }
      return Some(score * multiplier);
    }

    /** `scoreWord(word, location, direction)`: the main word, or None when a
        square is off the board or a character has no value. */
    method ScoreMainWord(word: string, location: Location, direction: Axis) returns (s: Option<int>)
      requires Valid()
      ensures s == MainScore(grid, word, location, direction)
    {
      ghost var g := grid;
      var result := 0;
      var multiplier := 1;
      var l := location;
      var i := 0;
      while i < |word|
        invariant 0 <= i <= |word| && l == Step(location, direction, i)
        invariant MainTally(g, word, location, direction, i, result, multiplier) == MainScore(g, word, location, direction)
      {
        if !OnBoard(l) {
          return None;
        }
        var square := GetSquare(l);
        var c := word[i];
        if c == ' ' {
          var v := TileValue(square);
          if v.None? {
            return None;
          }
          result := result + v.value;
        } else {
          var v := TileValue(c);
          if v.None? {
            return None;
          }
          var points, factor := Premium(square, v.value);
          result := result + points;
          multiplier := multiplier * factor;
        }
        l := Neighbor(l, direction);
        i := i + 1;
      }
      result := result * multiplier;
      return Some(result);
    }

    /** `score`: main word, cross words and the seven-tile bonus. */
    method Score(word: string, location: Location, direction: Axis) returns (s: Option<int>)
      requires Valid()
      ensures s == TotalScore(grid, word, location, direction)
    {
      var main := ScoreMainWord(word, location, direction);
      if main.None? {
        return None;
      }
      s := AddCrossWords(word, location, direction, main.value);
    }

    /** The loop of `score` after the main word: adds the cross word of every
        new tile to `result`, and the bonus for exactly seven tiles. */
    method AddCrossWords(word: string, location: Location, direction: Axis, result: int) returns (s: Option<int>)
      requires Valid()
      ensures s == ScoreRest(grid, word, location, direction, 0, result, 0)
    {
      ghost var g := grid;
      var total := result;
      var tilesPlayed := 0;
      var cross := Opposite(direction);
      var l := location;
      var i := 0;
      while i < |word|
        invariant 0 <= i <= |word| && l == Step(location, direction, i)
        invariant ScoreRest(g, word, location, direction, i, total, tilesPlayed) == ScoreRest(g, word, location, direction, 0, result, 0)
      {
        if word[i] != ' ' {
          var c := ScoreCrossWord(l, cross, word[i]);
          if c.None? {
            return None;
          }
          total := total + c.value;
          tilesPlayed := tilesPlayed + 1;
        }
        l := Neighbor(l, direction);
        i := i + 1;
      }
      if tilesPlayed == 7 {
        total := total + BINGO_BONUS;
      }
      return Some(total);
    }

    /** `play`: records the score and places the word; when scoring throws,
        nothing changes. */
    method Play(word: string, location: Location, direction: Axis, hand: seq<char>) returns (ok: bool)
      requires Valid()
      modifies this`tmpScore, this`grid, squares
      ensures Valid() && squares == old(squares) && value == old(value)
      ensures ok == TotalScore(old(grid), word, location, direction).Some?
      ensures ok ==> tmpScore == TotalScore(old(grid), word, location, direction).value
      ensures ok ==> grid == Placed(old(grid), word, location, direction)
      ensures !ok ==> tmpScore == old(tmpScore) && grid == old(grid)
    {
      var s := Score(word, location, direction);
      if s.None? {
        return false;
      }
      ScoredWordsFit(grid, word, location, direction);
      tmpScore := s.value;
      PlaceWord(word, location, direction);
      return true;
    }

    /** `exchange`: an exchange scores nothing on a hypothetical board. */
    method Exchange(hand: seq<char>, tilesToExchange: seq<bool>)
      requires Valid()
      modifies this`tmpScore
      ensures Valid() && squares == old(squares) && value == old(value)
      ensures tmpScore == 0
    {
      tmpScore := 0;
    }

    /** `move.play(this, 0)`: a word goes to `play`, an exchange to `exchange`,
        always with the full hand. */
    method PlayMove(move: ScrabbleMove)
      requires Valid()
      modifies this`tmpScore, this`grid, squares
      ensures Valid() && squares == old(squares) && value == old(value)
      ensures grid == AfterMove(old(grid), move)
      ensures tmpScore == (if move.PlayWord? && TotalScore(old(grid), move.word, move.location, move.direction).None?
                           then old(tmpScore) else MovePoints(old(grid), move))
    {
      match move {
        case PlayWord(w, l, d) =>
          var _ := Play(w, l, d, FULL_HAND);
        case ExchangeTiles(tiles) =>
          Exchange(FULL_HAND, tiles);
      }
    }

    /** A copy of `board` with `move` replayed on it, worth the board's value
        plus (or minus) the move's points. */
    constructor Copy(board: PossiBoard, move: ScrabbleMove, scorePositive: bool)
      requires board.Valid()
      ensures Valid() && fresh(squares)
      ensures grid == AfterMove(old(board.grid), move)
      ensures value == board.value + (if scorePositive then 1 else -1) * MovePoints(old(board.grid), move)
    {
      var a := new char[WIDTH, WIDTH];
      var r := 0;
      while r < WIDTH
        invariant 0 <= r <= WIDTH
        invariant forall i, j :: 0 <= i < r && 0 <= j < WIDTH ==> a[i, j] == board.squares[i, j]
      {
        var c := 0;
        while c < WIDTH
          invariant 0 <= c <= WIDTH
          invariant forall i, j :: 0 <= i < r && 0 <= j < WIDTH ==> a[i, j] == board.squares[i, j]
          invariant forall j :: 0 <= j < c ==> a[r, j] == board.squares[r, j]
        {
          a[r, c] := board.squares[r, c];
          c := c + 1;
        }
        r := r + 1;
      }
      value := board.value;
      squares := a;
      grid := board.grid;
      tmpScore := 0;
      new;
      PlayMove(move);
      if scorePositive {
        value := value + tmpScore;
      } else {
        value := value - tmpScore;
      }
    }

    /** A board read from the top-left 15x15 squares of `boardLayout` with
        `move` replayed on it, worth the move's points (or their negation). */
    constructor FromLayout(boardLayout: array2<char>, move: ScrabbleMove, scorePositive: bool)
      requires boardLayout.Length0 >= WIDTH && boardLayout.Length1 >= WIDTH
      ensures Valid() && fresh(squares)
      ensures grid == AfterMove(old(Window(boardLayout)), move)
      ensures value == (if scorePositive then 1 else -1) * MovePoints(old(Window(boardLayout)), move)
    {
      var a := new char[WIDTH, WIDTH];
      var r := 0;
      while r < WIDTH
        invariant 0 <= r <= WIDTH
        invariant forall i, j :: 0 <= i < r && 0 <= j < WIDTH ==> a[i, j] == boardLayout[i, j]
      {
        var c := 0;
        while c < WIDTH
          invariant 0 <= c <= WIDTH
          invariant forall i, j :: 0 <= i < r && 0 <= j < WIDTH ==> a[i, j] == boardLayout[i, j]
          invariant forall j :: 0 <= j < c ==> a[r, j] == boardLayout[r, j]
        {
          a[r, c] := boardLayout[r, c];
          c := c + 1;
        }
        r := r + 1;
      }
      value := 0;
      squares := a;
      grid := Window(boardLayout);
      tmpScore := 0;
      new;
      PlayMove(move);
      if scorePositive {
        value := tmpScore;
      } else {
        value := -tmpScore;
      }
    }
  }
}
