/** Board coordinates, directions and the collaborators every engine talks to.
    The `Location` class of the game framework is a (row, column) pair; a
    direction is one of the two axes. */
module Common {

  datatype Option<T> = None | Some(value: T)

  /** Width (and height) of the board, in squares. */
  const WIDTH: int := 15

  datatype Location = Location(row: int, col: int)

  /** `Location.HORIZONTAL` steps along a row (column + 1), `Location.VERTICAL`
      steps along a column (row + 1). */
  datatype Axis = Horizontal | Vertical

  const CENTER: Location := Location(7, 7)

  /** The blank tile in a hand. */
  const BLANK: char := '_'

  function Opposite(d: Axis): Axis {
    if d == Horizontal then Vertical else Horizontal
  }

  /** `k` squares further along `d` (backwards when `k` is negative). */
  function Step(l: Location, d: Axis, k: int): Location {
    if d == Horizontal then Location(l.row, l.col + k) else Location(l.row + k, l.col)
  }

  function Neighbor(l: Location, d: Axis): Location { Step(l, d, 1) }

  function Antineighbor(l: Location, d: Axis): Location { Step(l, d, -1) }

  /** The coordinate that changes when stepping along `d`. */
  function Coord(l: Location, d: Axis): int {
    if d == Horizontal then l.col else l.row
  }

  predicate OnBoard(l: Location) {
    0 <= l.row < WIDTH && 0 <= l.col < WIDTH
  }

  predicate IsLower(c: char) { 'a' <= c <= 'z' }

  /** `n` copies of `c`. */
  function Repeat(c: char, n: nat): (r: seq<char>)
    ensures |r| == n && forall i :: 0 <= i < n ==> r[i] == c
  {
    if n == 0 then [] else Repeat(c, n - 1) + [c]
  }

  predicate IsUpper(c: char) { 'A' <= c <= 'Z' }

  /** A letter on a square: what `Character.isAlphabetic` answers for the
      characters a board holds, which are ASCII letters or premium marks. */
  predicate IsTileLetter(c: char) { IsLower(c) || IsUpper(c) }

  function ToUpper(c: char): char {
    if IsLower(c) then (c as int - 'a' as int + 'A' as int) as char else c
  }

  function ToLower(c: char): char {
    if IsUpper(c) then (c as int - 'A' as int + 'a' as int) as char else c
  }

  function LowerString(s: string): (r: string)
    ensures |r| == |s|
    ensures forall i :: 0 <= i < |s| ==> r[i] == ToLower(s[i])
  {
    if s == [] then [] else [ToLower(s[0])] + LowerString(s[1..])
  }

  /** A snapshot of the 15x15 squares: premium symbols or tiles. */
  type Grid = seq<seq<char>>

  predicate WellFormed(g: Grid) {
    |g| == WIDTH && forall r :: 0 <= r < WIDTH ==> |g[r]| == WIDTH
  }

  function At(g: Grid, l: Location): char
    requires WellFormed(g) && OnBoard(l)
  {
    g[l.row][l.col]
  }

  /** On the board and holding a tile (`isOnBoard() && isOccupied()`). */
  predicate OccupiedAt(g: Grid, l: Location)
    requires WellFormed(g)
  {
    OnBoard(l) && IsTileLetter(At(g, l))
  }

  /** What an engine hands back to the game: a word to place, or tiles to swap. */
  datatype ScrabbleMove =
    | PlayWord(word: string, location: Location, direction: Axis)
    | ExchangeTiles(tiles: seq<bool>)

  /** `ALL_TILES`: when exchanging, always exchange everything. */
  const ALL_TILES: seq<bool> := [true, true, true, true, true, true, true]

  /** The engines' only view of the game: the authoritative board, the hand,
      and the board's scorer and legality check (their code is not part of
      this model, so they are given as functions). */
  datatype GateKeeper = GateKeeper(
    board: Grid,
    hand: seq<char>,
    score: (string, Location, Axis) -> int,
    legal: (string, Location, Axis) -> bool)

  predicate ValidGateKeeper(gk: GateKeeper) { WellFormed(gk.board) }

  function Square(gk: GateKeeper, l: Location): char
    requires ValidGateKeeper(gk) && OnBoard(l)
  {
    At(gk.board, l)
  }
}
