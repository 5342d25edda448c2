/** What the three engines share: the scored `Move` record and its descending
    order, the scan that collects the tiles on the board, the moves built from
    a list of guessed words, the `send` rule of the two older engines, and the
    brute-force searches for a play of one or two tiles. */
module MoveSelection {
  import opened Common
  import PossiBoard

  /** The centre still shows its premium symbol: nobody has played yet. */
  predicate FirstTurn(gk: GateKeeper)
    requires ValidGateKeeper(gk)
  {
    Square(gk, CENTER) == PossiBoard.DOUBLE_WORD_SCORE
  }

  // ---------------------------------------------------------------------------
  // Moves and their order

  /** A candidate with the score the board gave it. `play` is the record's
      `PlayWord` field, which no engine ever fills in. */
  datatype Move = Move(word: string, location: Location, direction: Axis, score: int, play: Option<ScrabbleMove>)

  /** A candidate as the engines build it: scored by the board, no play. */
  function Scored(gk: GateKeeper, word: string, l: Location, d: Axis): Move {
    Move(word, l, d, gk.score(word, l, d), None)
  }

  /** `Move.compareTo`: the comparison is written backwards, so that the
      natural order puts the higher score first. */
  function CompareTo(a: Move, b: Move): int {
    if a.score < b.score then 1 else if a.score == b.score then 0 else -1
  }

  /** The comparison meets `Comparable`'s contract and orders by descending
      score. */
  lemma CompareToOrder(a: Move, b: Move, c: Move)
    ensures CompareTo(a, b) < 0 <==> a.score > b.score
    ensures CompareTo(a, b) == 0 <==> a.score == b.score
    ensures CompareTo(a, b) == -CompareTo(b, a)
    ensures CompareTo(a, b) <= 0 && CompareTo(b, c) <= 0 ==> CompareTo(a, c) <= 0
    ensures CompareTo(a, b) == 0 ==> CompareTo(a, c) == CompareTo(b, c)
  {
  }

  /** Descending by score: no move ranks below (`compareTo` > 0) a later one. */
  predicate SortedByScore(s: seq<Move>) {
    forall i, j :: 0 <= i < j < |s| ==> s[i].score >= s[j].score
  }

  /** The moves of `s` with score `v`, in order. */
  function WithScore(s: seq<Move>, v: int): seq<Move> {
    if s == [] then [] else (if s[0].score == v then [s[0]] else []) + WithScore(s[1..], v)
  }

  /** `x` goes after every move that scores at least as much. */
  function Insert(x: Move, s: seq<Move>): seq<Move> {
    if s == [] then [x]
    else if CompareTo(x, s[0]) < 0 then [x] + s
    else [s[0]] + Insert(x, s[1..])
  }

  /** Inserting adds the move and nothing else. */
  lemma {:induction false} InsertAdds(x: Move, s: seq<Move>)
    ensures multiset(Insert(x, s)) == multiset(s) + multiset{x}
  {
    if s != [] && CompareTo(x, s[0]) >= 0 {
      InsertAdds(x, s[1..]);
      assert s == [s[0]] + s[1..];
    }
  }

  /** A move that scores at least as much as every move of a sorted list can
      lead it. */
  lemma ConsSorted(h: Move, t: seq<Move>)
    requires SortedByScore(t)
    requires forall k :: 0 <= k < |t| ==> t[k].score <= h.score
    ensures SortedByScore([h] + t)
  {
    var r := [h] + t;
    forall i, j | 0 <= i < j < |r|
      ensures r[i].score >= r[j].score
    {
      assert r[j] == t[j - 1];
      if i > 0 {
        assert r[i] == t[i - 1];
      }
    }
  }

  /** Inserting keeps every score under a bound that the list and the new
      move respect. */
  lemma {:induction false} InsertBounded(x: Move, s: seq<Move>, top: int)
    requires x.score <= top
    requires forall k :: 0 <= k < |s| ==> s[k].score <= top
    ensures forall k :: 0 <= k < |Insert(x, s)| ==> Insert(x, s)[k].score <= top
  {
    if s != [] && CompareTo(x, s[0]) >= 0 {
      InsertBounded(x, s[1..], top);
      var rest := Insert(x, s[1..]);
      assert Insert(x, s) == [s[0]] + rest;
      forall k | 0 <= k < |rest| + 1
        ensures ([s[0]] + rest)[k].score <= top
      {
        if k > 0 {
          assert ([s[0]] + rest)[k] == rest[k - 1];
        }
      }
    }
  }

  lemma {:induction false} InsertSorted(x: Move, s: seq<Move>)
    requires SortedByScore(s)
    ensures SortedByScore(Insert(x, s))
  {
    if s == [] {
    } else if CompareTo(x, s[0]) < 0 {
      ConsSorted(x, s);
    } else {
      var tail := s[1..];
      assert SortedByScore(tail) by {
        forall i, j | 0 <= i < j < |tail|
          ensures tail[i].score >= tail[j].score
        {
          assert tail[i] == s[i + 1] && tail[j] == s[j + 1];
        }
      }
      InsertSorted(x, tail);
      assert forall k :: 0 <= k < |tail| ==> tail[k].score <= s[0].score by {
        forall k | 0 <= k < |tail|
          ensures tail[k].score <= s[0].score
        {
          assert tail[k] == s[k + 1];
        }
      }
      InsertBounded(x, tail, s[0].score);
      ConsSorted(s[0], Insert(x, tail));
    }
  }

  /** `Collections.sort(moves)`: the sort is stable, so this insertion sort,
      which inserts each move after its equals, gives the same list. */
  function SortByScore(ms: seq<Move>): seq<Move> {
    if ms == [] then []
    else Insert(ms[|ms| - 1], SortByScore(ms[..|ms| - 1]))
  }

  /** The sort rearranges the moves. */
  lemma {:induction false} SortByScorePermutes(ms: seq<Move>)
    ensures multiset(SortByScore(ms)) == multiset(ms)
  {
    if ms != [] {
      SortByScorePermutes(ms[..|ms| - 1]);
      InsertAdds(ms[|ms| - 1], SortByScore(ms[..|ms| - 1]));
      assert ms == ms[..|ms| - 1] + [ms[|ms| - 1]];
    }
  }

  /** The sorted list runs from the highest score down. */
  lemma {:induction false} SortByScoreSorted(ms: seq<Move>)
    ensures SortedByScore(SortByScore(ms))
  {
    if ms != [] {
      SortByScoreSorted(ms[..|ms| - 1]);
      InsertSorted(ms[|ms| - 1], SortByScore(ms[..|ms| - 1]));
    }
  }

  lemma WithScoreCons(h: Move, t: seq<Move>, v: int)
    ensures WithScore([h] + t, v) == (if h.score == v then [h] else []) + WithScore(t, v)
  {
    assert ([h] + t)[0] == h;
    assert ([h] + t)[1..] == t;
  }

  lemma {:induction false} WithScoreAppend(s: seq<Move>, t: seq<Move>, v: int)
    ensures WithScore(s + t, v) == WithScore(s, v) + WithScore(t, v)
  {
    if s != [] {
      var h, r := s[0], s[1..];
      var first := if h.score == v then [h] else [];
      assert s == [h] + r;
      assert s + t == [h] + (r + t);
      calc {
        WithScore(s + t, v);
        { WithScoreCons(h, r + t, v); }
        first + WithScore(r + t, v);
        { WithScoreAppend(r, t, v); }
        first + (WithScore(r, v) + WithScore(t, v));
        first + WithScore(r, v) + WithScore(t, v);
        { WithScoreCons(h, r, v); }
        WithScore(s, v) + WithScore(t, v);
      }
    } else {
      assert s + t == t;
    }
  }

  lemma {:induction false} WithScoreBelow(s: seq<Move>, v: int)
    requires forall k :: 0 <= k < |s| ==> s[k].score < v
    ensures WithScore(s, v) == []
  {
    if s != [] {
      WithScoreBelow(s[1..], v);
    }
  }

  lemma {:induction false} InsertKeepsTies(x: Move, s: seq<Move>, v: int)
    requires SortedByScore(s)
    ensures WithScore(Insert(x, s), v) == WithScore(s, v) + (if x.score == v then [x] else [])
  {
    if s == [] {
      WithScoreCons(x, [], v);
    } else if CompareTo(x, s[0]) < 0 {
      if x.score == v {
        WithScoreBelow(s, v);
      }
      WithScoreCons(x, s, v);
    } else {
      var tail := s[1..];
      assert SortedByScore(tail) by {
        forall i, j | 0 <= i < j < |tail|
          ensures tail[i].score >= tail[j].score
        {
          assert tail[i] == s[i + 1] && tail[j] == s[j + 1];
        }
      }
      InsertKeepsTies(x, tail, v);
      WithScoreCons(s[0], Insert(x, tail), v);
      WithScoreCons(s[0], tail, v);
      assert s == [s[0]] + tail;
    }
  }

  /** The sort is stable: moves of equal score keep their order. */
  lemma {:induction false} SortByScoreStable(ms: seq<Move>, v: int)
    ensures WithScore(SortByScore(ms), v) == WithScore(ms, v)
  {
    if ms != [] {
      var init := ms[..|ms| - 1];
      var last := ms[|ms| - 1];
      var sorted := SortByScore(init);
      SortByScoreStable(init, v);
      SortByScoreSorted(init);
      InsertKeepsTies(last, sorted, v);
      assert ms == init + [last];
      WithScoreAppend(init, [last], v);
      WithScoreCons(last, [], v);
      assert [last] + [] == [last];
    }
  }

  // ---------------------------------------------------------------------------
  // `send` of the two older engines

  predicate Legal(gk: GateKeeper, m: Move) {
    gk.legal(m.word, m.location, m.direction)
  }

  /** The last legal move of the list. */
  function LastLegal(gk: GateKeeper, moves: seq<Move>): Option<Move> {
    if moves == [] then None
    else if Legal(gk, moves[|moves| - 1]) then Some(moves[|moves| - 1])
    else LastLegal(gk, moves[..|moves| - 1])
  }

  /** There is a last legal move exactly when some move is legal. */
  lemma {:induction false} LastLegalNone(gk: GateKeeper, moves: seq<Move>)
    ensures LastLegal(gk, moves).None? <==> forall i :: 0 <= i < |moves| ==> !Legal(gk, moves[i])
  {
    if moves != [] && !Legal(gk, moves[|moves| - 1]) {
      var init := moves[..|moves| - 1];
      LastLegalNone(gk, init);
      assert forall j :: 0 <= j < |init| ==> init[j] == moves[j];
    }
  }

  /** The last legal move is a legal move of the list that no later legal
      move follows. */
  lemma {:induction false} LastLegalSome(gk: GateKeeper, moves: seq<Move>)
    ensures LastLegal(gk, moves).Some? ==>
              exists i :: 0 <= i < |moves| && moves[i] == LastLegal(gk, moves).value && Legal(gk, moves[i])
                          && forall j :: i < j < |moves| ==> !Legal(gk, moves[j])
  {
    if moves != [] && !Legal(gk, moves[|moves| - 1]) {
      var init := moves[..|moves| - 1];
      LastLegalSome(gk, init);
      assert forall j :: 0 <= j < |init| ==> init[j] == moves[j];
    }
  }

  function LastLegalOutcome(gk: GateKeeper, moves: seq<Move>): ScrabbleMove {
    var last := LastLegal(gk, moves);
    if last.Some? && last.value.play.Some? then last.value.play.value else ExchangeTiles(ALL_TILES)
  }

  /** The loop of `send` after the sort: every legal move overwrites the
      choice with its `move` field. The engines never fill that field in, so
      they always exchange. */
  method SendLastLegal(gk: GateKeeper, moves: seq<Move>) returns (m: ScrabbleMove)
    ensures m == LastLegalOutcome(gk, moves)
    ensures (forall i :: 0 <= i < |moves| ==> moves[i].play.None?) ==> m == ExchangeTiles(ALL_TILES)
  {
    var bestMove: Option<ScrabbleMove> := None;
    var i := 0;
    while i < |moves|
      invariant 0 <= i <= |moves|
      invariant bestMove == (var last := LastLegal(gk, moves[..i]); if last.Some? then last.value.play else None)
    {
      assert moves[..i + 1][..i] == moves[..i];
      if Legal(gk, moves[i]) {
        bestMove := moves[i].play;
      }
      i := i + 1;
    }
    assert moves[..|moves|] == moves;
    LastLegalNone(gk, moves);
    LastLegalSome(gk, moves);
    if bestMove.Some? {
      return bestMove.value;
    }
    return ExchangeTiles(ALL_TILES);
  }

  // ---------------------------------------------------------------------------
  // Reading the board

  /** The `Tile` class: a location with the letter on it. */
  datatype Tile = Tile(location: Location, value: char)

  predicate OnTile(g: Grid, t: Tile)
    requires WellFormed(g)
  {
    OnBoard(t.location) && IsLower(t.value) && At(g, t.location) == t.value
  }

  /** Reading order: by row, then by column. */
  predicate ReadBefore(a: Location, b: Location) {
    a.row < b.row || (a.row == b.row && a.col < b.col)
  }

  /** The tiles in the first `n` squares of row `r`. */
  function RowTiles(g: Grid, r: int, n: nat): seq<Tile>
    requires WellFormed(g) && 0 <= r < WIDTH && n <= WIDTH
  {
    if n == 0 then []
    else
      var l := Location(r, n - 1);
      RowTiles(g, r, n - 1) + if IsLower(At(g, l)) then [Tile(l, At(g, l))] else []
  }

  /** The tiles in the first `n` rows. */
  function TilesAbove(g: Grid, n: nat): seq<Tile>
    requires WellFormed(g) && n <= WIDTH
  {
    if n == 0 then [] else TilesAbove(g, n - 1) + RowTiles(g, n - 1, WIDTH)
  }

  /** Every letter tile on the board, in reading order. */
  function BoardTiles(g: Grid): seq<Tile>
    requires WellFormed(g)
  {
    TilesAbove(g, WIDTH)
  }

  lemma {:induction false} RowTilesAre(g: Grid, r: int, n: nat)
    requires WellFormed(g) && 0 <= r < WIDTH && n <= WIDTH
    ensures forall k :: 0 <= k < |RowTiles(g, r, n)| ==>
              OnTile(g, RowTiles(g, r, n)[k]) && RowTiles(g, r, n)[k].location.row == r && RowTiles(g, r, n)[k].location.col < n
    ensures forall i, j :: 0 <= i < j < |RowTiles(g, r, n)| ==> RowTiles(g, r, n)[i].location.col < RowTiles(g, r, n)[j].location.col
    ensures forall c :: 0 <= c < n && IsLower(g[r][c]) ==> Tile(Location(r, c), g[r][c]) in RowTiles(g, r, n)
  {
    if n > 0 {
      RowTilesAre(g, r, n - 1);
    }
  }

  lemma {:induction false} TilesAboveAre(g: Grid, n: nat)
    requires WellFormed(g) && n <= WIDTH
    ensures forall k :: 0 <= k < |TilesAbove(g, n)| ==> OnTile(g, TilesAbove(g, n)[k]) && TilesAbove(g, n)[k].location.row < n
    ensures forall i, j :: 0 <= i < j < |TilesAbove(g, n)| ==> ReadBefore(TilesAbove(g, n)[i].location, TilesAbove(g, n)[j].location)
    ensures forall l :: OnBoard(l) && l.row < n && IsLower(At(g, l)) ==> Tile(l, At(g, l)) in TilesAbove(g, n)
  {
    if n > 0 {
      TilesAboveAre(g, n - 1);
      RowTilesAre(g, n - 1, WIDTH);
      var above := TilesAbove(g, n - 1);
      var row := RowTiles(g, n - 1, WIDTH);
      forall l | OnBoard(l) && l.row == n - 1 && IsLower(At(g, l))
        ensures Tile(l, At(g, l)) in row
      {
        assert l == Location(n - 1, l.col);
      }
      var ts := above + row;
      assert TilesAbove(g, n) == ts;
      forall i, j | 0 <= i < j < |ts|
        ensures ReadBefore(ts[i].location, ts[j].location)
      {
        if j < |above| {
        } else if i >= |above| {
          assert ts[i] == row[i - |above|] && ts[j] == row[j - |above|];
        } else {
          assert ts[i] == above[i] && ts[j] == row[j - |above|];
        }
      }
    }
  }

  /** The scan finds every letter tile on the board exactly where it lies,
      none missing, in reading order. */
  lemma BoardTilesAre(g: Grid)
    requires WellFormed(g)
    ensures forall t :: t in BoardTiles(g) <==> OnTile(g, t)
    ensures forall i, j :: 0 <= i < j < |BoardTiles(g)| ==> ReadBefore(BoardTiles(g)[i].location, BoardTiles(g)[j].location)
  {
    TilesAboveAre(g, WIDTH);
    var ts := BoardTiles(g);
    forall t
      ensures t in ts <==> OnTile(g, t)
    {
      if t in ts {
        var k :| 0 <= k < |ts| && ts[k] == t;
      }
      if OnTile(g, t) {
        assert t == Tile(t.location, At(g, t.location));
      }
    }
  }

  /** The column loop of the scan over its first `n` steps, pushing onto `acc`. */
  function ScanRow(g: Grid, acc: seq<Tile>, r: int, n: nat): seq<Tile>
    requires WellFormed(g) && 0 <= r < WIDTH && n <= WIDTH
  {
    if n == 0 then acc
    else
      var l := Location(r, n - 1);
      ScanRow(g, acc, r, n - 1) + if IsLower(At(g, l)) then [Tile(l, At(g, l))] else []
  }

  /** The row loop of the scan over its first `n` steps, pushing onto `acc`. */
  function ScanRows(g: Grid, acc: seq<Tile>, n: nat): seq<Tile>
    requires WellFormed(g) && n <= WIDTH
  {
    if n == 0 then acc else ScanRow(g, ScanRows(g, acc, n - 1), n - 1, WIDTH)
  }

  lemma {:induction false} ScanRowPushes(g: Grid, acc: seq<Tile>, r: int, n: nat)
    requires WellFormed(g) && 0 <= r < WIDTH && n <= WIDTH
    ensures ScanRow(g, acc, r, n) == acc + RowTiles(g, r, n)
  {
    if n > 0 {
      ScanRowPushes(g, acc, r, n - 1);
      var l := Location(r, n - 1);
      var more := if IsLower(At(g, l)) then [Tile(l, At(g, l))] else [];
      assert (acc + RowTiles(g, r, n - 1)) + more == acc + (RowTiles(g, r, n - 1) + more);
    } else {
      assert acc + [] == acc;
    }
  }

  lemma {:induction false} ScanRowsPushes(g: Grid, acc: seq<Tile>, n: nat)
    requires WellFormed(g) && n <= WIDTH
    ensures ScanRows(g, acc, n) == acc + TilesAbove(g, n)
  {
    if n > 0 {
      ScanRowsPushes(g, acc, n - 1);
      ScanRowPushes(g, ScanRows(g, acc, n - 1), n - 1, WIDTH);
      var row := RowTiles(g, n - 1, WIDTH);
      assert (acc + TilesAbove(g, n - 1)) + row == acc + (TilesAbove(g, n - 1) + row);
    } else {
      assert acc + [] == acc;
    }
  }

  /** The scan at the start of `chooseMove`: every square in reading order,
      each letter tile pushed on the engine's stack. */
  method ScanBoard(gk: GateKeeper, tiles: seq<Tile>) returns (r: seq<Tile>)
    requires ValidGateKeeper(gk)
    ensures r == tiles + BoardTiles(gk.board)
  {
    var g := gk.board;
    r := tiles;
    var i := 0;
    while i < WIDTH
      invariant 0 <= i <= WIDTH
      invariant r == ScanRows(g, tiles, i)
    {
      var j := 0;
      while j < WIDTH
        invariant 0 <= j <= WIDTH
        invariant r == ScanRow(g, ScanRows(g, tiles, i), i, j)
      {
        var t := Tile(Location(i, j), Square(gk, Location(i, j)));
        if IsLower(t.value) {
          r := r + [t];
        }
        j := j + 1;
      }
      i := i + 1;
    }
    ScanRowsPushes(g, tiles, WIDTH);
  }

  // ---------------------------------------------------------------------------
  // Moves from guessed words

  /** The guesses the engines use: every other one, from index `i`. */
  function EveryOther(guesses: seq<string>, i: nat): seq<string>
    decreases |guesses| - i
  {
    if i >= |guesses| then [] else [guesses[i]] + EveryOther(guesses, i + 2)
  }

  /** Entry `m` of the guesses tried is guess `i + 2m`, and half of the
      guesses from `i` on (rounded up) are tried. */
  lemma {:induction false} EveryOtherAre(guesses: seq<string>, i: nat)
    requires i <= |guesses|
    ensures |EveryOther(guesses, i)| == (|guesses| - i + 1) / 2
    ensures forall m :: 0 <= m < |EveryOther(guesses, i)| ==> EveryOther(guesses, i)[m] == guesses[i + 2 * m]
    decreases |guesses| - i
  {
    if i < |guesses| {
      var rest := EveryOther(guesses, i + 2);
      if i + 2 <= |guesses| {
        EveryOtherAre(guesses, i + 2);
      } else {
        assert rest == [];
      }
      var r := [guesses[i]] + rest;
      assert EveryOther(guesses, i) == r;
      forall m | 0 <= m < |r|
        ensures r[m] == guesses[i + 2 * m]
      {
        if m > 0 {
          assert r[m] == rest[m - 1];
        }
      }
    }
  }

  /** The two candidates of one guess: across from the square before `l`,
      and down from the square above it. */
  function PairOfMoves(gk: GateKeeper, guess: string, l: Location): seq<Move> {
    [Scored(gk, guess, Antineighbor(l, Horizontal), Horizontal),
     Scored(gk, guess, Antineighbor(l, Vertical), Vertical)]
  }

  /** The candidates of the guesses from index `i` on: because the loop
      index is also advanced in the body, only every other guess is tried. */
  function GuessMoves(gk: GateKeeper, guesses: seq<string>, i: nat, l: Location): seq<Move>
    decreases |guesses| - i
  {
    if i >= |guesses| then [] else PairOfMoves(gk, guesses[i], l) + GuessMoves(gk, guesses, i + 2, l)
  }

  /** Across for even positions, down for odd ones. */
  function AxisAt(k: nat): Axis {
    if k % 2 == 0 then Horizontal else Vertical
  }

  /** The candidates are the across and down moves of every other guess, in
      order: entry `k` comes from tried guess `k / 2`. */
  lemma {:induction false} GuessMovesAre(gk: GateKeeper, guesses: seq<string>, i: nat, l: Location)
    ensures |GuessMoves(gk, guesses, i, l)| == 2 * |EveryOther(guesses, i)|
    ensures forall k :: 0 <= k < |GuessMoves(gk, guesses, i, l)| ==>
              GuessMoves(gk, guesses, i, l)[k] == Scored(gk, EveryOther(guesses, i)[k / 2], Antineighbor(l, AxisAt(k)), AxisAt(k))
    decreases |guesses| - i
  {
    if i < |guesses| {
      GuessMovesAre(gk, guesses, i + 2, l);
      var r := GuessMoves(gk, guesses, i, l);
      var t := GuessMoves(gk, guesses, i + 2, l);
      var e := EveryOther(guesses, i);
      var f := EveryOther(guesses, i + 2);
      assert r == PairOfMoves(gk, guesses[i], l) + t;
      assert e == [guesses[i]] + f;
      forall k | 0 <= k < |r|
        ensures r[k] == Scored(gk, e[k / 2], Antineighbor(l, AxisAt(k)), AxisAt(k))
      {
        if k >= 2 {
          assert r[k] == t[k - 2];
          assert (k - 2) / 2 == k / 2 - 1 && AxisAt(k - 2) == AxisAt(k);
          assert e[k / 2] == f[k / 2 - 1];
        }
      }
    }
  }

  /** The guess loop of `betterMove` and `betterFirstMove`. */
  method AddGuessMoves(gk: GateKeeper, guesses: seq<string>, l: Location, moves: seq<Move>) returns (r: seq<Move>)
    ensures r == moves + GuessMoves(gk, guesses, 0, l)
  {
    r := moves;
    var i := 0;
    while i < |guesses|
      invariant 0 <= i
      invariant r + GuessMoves(gk, guesses, i, l) == moves + GuessMoves(gk, guesses, 0, l)
      decreases |guesses| - i
    {
      var guess := guesses[i];
      var hMove := Scored(gk, guess, Antineighbor(l, Horizontal), Horizontal);
      var vMove := Scored(gk, guess, Antineighbor(l, Vertical), Vertical);
      assert r + GuessMoves(gk, guesses, i, l) == (r + [hMove] + [vMove]) + GuessMoves(gk, guesses, i + 2, l);
      r := r + [hMove] + [vMove];
      i := i + 1;
      i := i + 1;
    }
  }

  /** Tiles read from the board hold letters. */
  predicate LetterTiles(tiles: seq<Tile>) {
    forall i :: 0 <= i < |tiles| ==> IsLower(tiles[i].value)
  }

  /** No candidate carries a play. */
  predicate Unplayed(moves: seq<Move>) {
    forall i :: 0 <= i < |moves| ==> moves[i].play.None?
  }

  /** A candidate of the guesses `guesses` at `l`: a tried guess, across
      from the square left of `l` or down from the square above it. */
  predicate Tried(gk: GateKeeper, guesses: seq<string>, l: Location, m: Move) {
    && m.word in EveryOther(guesses, 0)
    && (m == Scored(gk, m.word, Antineighbor(l, Horizontal), Horizontal)
        || m == Scored(gk, m.word, Antineighbor(l, Vertical), Vertical))
  }

  /** The guess moves at `l` are exactly the tried guesses in both
      directions. */
  lemma GuessMovesTried(gk: GateKeeper, guesses: seq<string>, l: Location, m: Move)
    ensures m in GuessMoves(gk, guesses, 0, l) <==> Tried(gk, guesses, l, m)
  {
    var ms := GuessMoves(gk, guesses, 0, l);
    var tried := EveryOther(guesses, 0);
    GuessMovesAre(gk, guesses, 0, l);
    if m in ms {
      var k :| 0 <= k < |ms| && ms[k] == m;
      assert m == Scored(gk, tried[k / 2], Antineighbor(l, AxisAt(k)), AxisAt(k));
    }
    if Tried(gk, guesses, l, m) {
      var j :| 0 <= j < |tried| && tried[j] == m.word;
      if m == Scored(gk, m.word, Antineighbor(l, Horizontal), Horizontal) {
        assert AxisAt(2 * j) == Horizontal && (2 * j) / 2 == j;
        assert ms[2 * j] == m;
      } else {
        assert AxisAt(2 * j + 1) == Vertical && (2 * j + 1) / 2 == j;
        assert ms[2 * j + 1] == m;
      }
    }
  }

  /** A tried guess is one of the guesses. */
  lemma TriedIsGuess(gk: GateKeeper, guesses: seq<string>, l: Location, m: Move)
    requires Tried(gk, guesses, l, m)
    ensures m.word in guesses
  {
    EveryOtherAre(guesses, 0);
    var tried := EveryOther(guesses, 0);
    var j :| 0 <= j < |tried| && tried[j] == m.word;
    assert guesses[2 * j] == m.word;
  }

  /** Guess moves carry no play. */
  lemma GuessMovesUnplayed(gk: GateKeeper, guesses: seq<string>, l: Location)
    ensures Unplayed(GuessMoves(gk, guesses, 0, l))
  {
    GuessMovesAre(gk, guesses, 0, l);
  }

  /** Sorting unplayed candidates leaves them unplayed, so `send` exchanges
      all seven tiles whatever the oracle accepts. */
  lemma SendExchanges(gk: GateKeeper, ms: seq<Move>)
    requires Unplayed(ms)
    ensures Unplayed(SortByScore(ms))
    ensures LastLegalOutcome(gk, SortByScore(ms)) == ExchangeTiles(ALL_TILES)
  {
    var sorted := SortByScore(ms);
    SortByScorePermutes(ms);
    forall k | 0 <= k < |sorted|
      ensures sorted[k].play.None?
    {
      assert sorted[k] in multiset(sorted);
    }
    LastLegalSome(gk, sorted);
  }

  // ---------------------------------------------------------------------------
  // The opening searches

  /** A word placed at a location and direction. */
  datatype Placement = Placement(word: string, location: Location, direction: Axis)

  /** The best legal placement so far and its score. */
  datatype Best = Best(score: int, choice: Option<Placement>)

  const NO_BEST: Best := Best(-1, None)

  predicate Qualifies(gk: GateKeeper, p: Placement) {
    gk.legal(p.word, p.location, p.direction)
  }

  function ScoreOf(gk: GateKeeper, p: Placement): int {
    gk.score(p.word, p.location, p.direction)
  }

  /** One try: an illegal placement is skipped, and a legal one replaces the
      best only when it scores strictly more. */
  function Improve(gk: GateKeeper, b: Best, p: Placement): Best {
    if Qualifies(gk, p) && ScoreOf(gk, p) > b.score then Best(ScoreOf(gk, p), Some(p)) else b
  }

  /** Trying the first `n` placements in order, from `b`. */
  function RunTo(gk: GateKeeper, b: Best, ps: seq<Placement>, n: nat): Best {
    if n == 0 || n > |ps| then b else Improve(gk, RunTo(gk, b, ps, n - 1), ps[n - 1])
  }

  /** Trying the placements in order, from `b`. */
  function Run(gk: GateKeeper, b: Best, ps: seq<Placement>): Best {
    RunTo(gk, b, ps, |ps|)
  }

  /** A search only looks at the placements it has reached. */
  lemma {:induction false} RunToPrefix(gk: GateKeeper, b: Best, ps: seq<Placement>, qs: seq<Placement>, n: nat)
    requires n <= |ps| && n <= |qs| && forall k :: 0 <= k < n ==> ps[k] == qs[k]
    ensures RunTo(gk, b, ps, n) == RunTo(gk, b, qs, n)
  {
    if n > 0 {
      RunToPrefix(gk, b, ps, qs, n - 1);
    }
  }

  lemma {:induction false} RunToAppend(gk: GateKeeper, b: Best, xs: seq<Placement>, ys: seq<Placement>, n: nat)
    requires n <= |ys|
    ensures RunTo(gk, b, xs + ys, |xs| + n) == RunTo(gk, Run(gk, b, xs), ys, n)
  {
    if n == 0 {
      RunToPrefix(gk, b, xs + ys, xs, |xs|);
    } else {
      RunToAppend(gk, b, xs, ys, n - 1);
      assert (xs + ys)[|xs| + n - 1] == ys[n - 1];
    }
  }

  lemma RunAppend(gk: GateKeeper, b: Best, xs: seq<Placement>, ys: seq<Placement>)
    ensures Run(gk, b, xs + ys) == Run(gk, Run(gk, b, xs), ys)
  {
    RunToAppend(gk, b, xs, ys, |ys|);
  }

  /** A search over `xs + ys` is the search over `ys` from where the search
      over `xs` ended. */
  lemma RunStep(gk: GateKeeper, b: Best, xs: seq<Placement>, ys: seq<Placement>, all: seq<Placement>, mid: Best, fin: Best)
    requires all == xs + ys && Run(gk, b, xs) == mid && Run(gk, mid, ys) == fin
    ensures Run(gk, b, all) == fin
  {
    RunAppend(gk, b, xs, ys);
  }

  lemma RunSnoc(gk: GateKeeper, b: Best, ps: seq<Placement>, p: Placement)
    ensures Run(gk, b, ps + [p]) == Improve(gk, Run(gk, b, ps), p)
  {
    RunToPrefix(gk, b, ps + [p], ps, |ps|);
  }

  lemma {:induction false} RunToKeepsBest(gk: GateKeeper, b: Best, ps: seq<Placement>, n: nat)
    requires n <= |ps|
    ensures RunTo(gk, b, ps, n).score >= b.score
    ensures forall k :: 0 <= k < n && Qualifies(gk, ps[k]) ==> ScoreOf(gk, ps[k]) <= RunTo(gk, b, ps, n).score
    ensures RunTo(gk, b, ps, n).score == b.score ==> RunTo(gk, b, ps, n) == b
    ensures RunTo(gk, b, ps, n).score > b.score ==>
              exists k :: 0 <= k < n && Qualifies(gk, ps[k]) && RunTo(gk, b, ps, n) == Best(ScoreOf(gk, ps[k]), Some(ps[k]))
                          && forall j :: 0 <= j < k && Qualifies(gk, ps[j]) ==> ScoreOf(gk, ps[j]) < ScoreOf(gk, ps[k])
  {
    if n > 0 {
      RunToKeepsBest(gk, b, ps, n - 1);
    }
  }

  /** The search ends with the first of the highest-scoring legal placements,
      or where it began when none scores more than that. */
  lemma RunKeepsBest(gk: GateKeeper, b: Best, ps: seq<Placement>)
    ensures Run(gk, b, ps).score >= b.score
    ensures forall k :: 0 <= k < |ps| && Qualifies(gk, ps[k]) ==> ScoreOf(gk, ps[k]) <= Run(gk, b, ps).score
    ensures Run(gk, b, ps).score == b.score ==> Run(gk, b, ps) == b
    ensures Run(gk, b, ps).score > b.score ==>
              exists k :: 0 <= k < |ps| && Qualifies(gk, ps[k]) && Run(gk, b, ps) == Best(ScoreOf(gk, ps[k]), Some(ps[k]))
                          && forall j :: 0 <= j < k && Qualifies(gk, ps[j]) ==> ScoreOf(gk, ps[j]) < ScoreOf(gk, ps[k])
  {
    RunToKeepsBest(gk, b, ps, |ps|);
  }

  /** From nothing, a search has a choice exactly when its score is above -1. */
  lemma ChoiceIffScored(gk: GateKeeper, ps: seq<Placement>)
    ensures Run(gk, NO_BEST, ps).choice.Some? <==> Run(gk, NO_BEST, ps).score > -1
  {
    RunKeepsBest(gk, NO_BEST, ps);
  }

  /** What an opening search returns from its best placement. */
  function Decide(b: Best): ScrabbleMove {
    if b.choice.Some? then PlayWord(b.choice.value.word, b.choice.value.location, b.choice.value.direction)
    else ExchangeTiles(ALL_TILES)
  }

  /** An opening search plays the first legal placement with the highest
      score, and exchanges every tile when no legal placement scores above
      -1. */
  lemma OpeningChoice(gk: GateKeeper, ps: seq<Placement>)
    ensures Decide(Run(gk, NO_BEST, ps)).ExchangeTiles? <==>
              forall k :: 0 <= k < |ps| && Qualifies(gk, ps[k]) ==> ScoreOf(gk, ps[k]) <= -1
    ensures Decide(Run(gk, NO_BEST, ps)).ExchangeTiles? ==> Decide(Run(gk, NO_BEST, ps)) == ExchangeTiles(ALL_TILES)
    ensures Decide(Run(gk, NO_BEST, ps)).PlayWord? ==>
              exists k :: 0 <= k < |ps| && Qualifies(gk, ps[k])
                          && Decide(Run(gk, NO_BEST, ps)) == PlayWord(ps[k].word, ps[k].location, ps[k].direction)
                          && (forall j :: 0 <= j < |ps| && Qualifies(gk, ps[j]) ==> ScoreOf(gk, ps[j]) <= ScoreOf(gk, ps[k]))
                          && (forall j :: 0 <= j < k && Qualifies(gk, ps[j]) ==> ScoreOf(gk, ps[j]) < ScoreOf(gk, ps[k]))
  {
    RunKeepsBest(gk, NO_BEST, ps);
  }

  /** A blank is tried as an 'E'. */
  function AsTile(c: char): char {
    if c == BLANK then 'E' else c
  }

  function PairWord(hand: seq<char>, i: nat, j: nat): string
    requires i < |hand| && j < |hand|
  {
    [AsTile(hand[i]), AsTile(hand[j])]
  }

  /** The pairs led by tile `i`, with the second tile among the first `n`. */
  function PairsLedBy(hand: seq<char>, i: nat, n: nat): seq<Placement>
  {
    if n == 0 || i >= |hand| || n > |hand| then []
    else PairsLedBy(hand, i, n - 1)
         + if i != n - 1 then [Placement(PairWord(hand, i, n - 1), CENTER, Horizontal)] else []
  }

  /** The pairs led by one of the first `n` tiles. */
  function PairsBefore(hand: seq<char>, n: nat): seq<Placement>
  {
    if n == 0 || n > |hand| then [] else PairsBefore(hand, n - 1) + PairsLedBy(hand, n - 1, |hand|)
  }

  /** What `findTwoTileMove` tries, in its order. */
  function TwoTileCandidates(hand: seq<char>): seq<Placement> {
    PairsBefore(hand, |hand|)
  }

  lemma {:induction false} PairsLedByAre(hand: seq<char>, i: nat, n: nat, p: Placement)
    requires i < |hand| && n <= |hand|
    ensures p in PairsLedBy(hand, i, n) <==>
              exists j :: 0 <= j < n && j != i && p == Placement(PairWord(hand, i, j), CENTER, Horizontal)
  {
    if n > 0 {
      PairsLedByAre(hand, i, n - 1, p);
    }
  }

  lemma {:induction false} PairsBeforeAre(hand: seq<char>, n: nat, p: Placement)
    requires n <= |hand|
    ensures p in PairsBefore(hand, n) <==>
              exists i, j :: 0 <= i < n && 0 <= j < |hand| && j != i && p == Placement(PairWord(hand, i, j), CENTER, Horizontal)
  {
    if n > 0 {
      PairsBeforeAre(hand, n - 1, p);
      PairsLedByAre(hand, n - 1, |hand|, p);
      if p in PairsBefore(hand, n) && p !in PairsBefore(hand, n - 1) {
        var j :| 0 <= j < |hand| && j != n - 1 && p == Placement(PairWord(hand, n - 1, j), CENTER, Horizontal);
        assert 0 <= n - 1 < n;
      }
      if exists i, j :: 0 <= i < n && 0 <= j < |hand| && j != i && p == Placement(PairWord(hand, i, j), CENTER, Horizontal) {
        var i, j :| 0 <= i < n && 0 <= j < |hand| && j != i && p == Placement(PairWord(hand, i, j), CENTER, Horizontal);
        if i == n - 1 {
          assert p in PairsLedBy(hand, n - 1, |hand|);
        }
      }
    }
  }

  /** The two-tile search tries exactly the ordered pairs of distinct tiles
      of the hand, laid across from the centre. */
  lemma TwoTileCandidatesAre(hand: seq<char>, p: Placement)
    ensures p in TwoTileCandidates(hand) <==>
              exists i, j :: 0 <= i < |hand| && 0 <= j < |hand| && i != j && p == Placement(PairWord(hand, i, j), CENTER, Horizontal)
  {
    PairsBeforeAre(hand, |hand|, p);
  }

  function AtCentre(bestWord: Option<string>): Option<Placement> {
    if bestWord.Some? then Some(Placement(bestWord.value, CENTER, Horizontal)) else None
  }

  /** One turn of the inner loop of `findTwoTileMove`: the pair (`i`, `n - 1`)
      is tried unless it uses the same tile twice. */
  lemma PairStep(gk: GateKeeper, b: Best, hand: seq<char>, i: nat, n: nat)
    requires i < |hand| && 0 < n <= |hand|
    ensures Run(gk, b, PairsLedBy(hand, i, n)) ==
              if i != n - 1 then Improve(gk, Run(gk, b, PairsLedBy(hand, i, n - 1)), Placement(PairWord(hand, i, n - 1), CENTER, Horizontal))
              else Run(gk, b, PairsLedBy(hand, i, n - 1))
  {
    if i != n - 1 {
      RunSnoc(gk, b, PairsLedBy(hand, i, n - 1), Placement(PairWord(hand, i, n - 1), CENTER, Horizontal));
    } else {
      assert PairsLedBy(hand, i, n) == PairsLedBy(hand, i, n - 1);
    }
  }

  /** The inner loop of `findTwoTileMove` over its first `n` steps, from `b`. */
  function PairsLedByRun(gk: GateKeeper, b: Best, hand: seq<char>, i: nat, n: nat): Best
  {
    if n == 0 || i >= |hand| || n > |hand| then b
    else
      var before := PairsLedByRun(gk, b, hand, i, n - 1);
      if i != n - 1 then Improve(gk, before, Placement(PairWord(hand, i, n - 1), CENTER, Horizontal)) else before
  }

  lemma {:induction false} PairsLedByRunIsRun(gk: GateKeeper, b: Best, hand: seq<char>, i: nat, n: nat)
    requires i < |hand| && n <= |hand|
    ensures PairsLedByRun(gk, b, hand, i, n) == Run(gk, b, PairsLedBy(hand, i, n))
  {
    if n > 0 {
      PairsLedByRunIsRun(gk, b, hand, i, n - 1);
      PairStep(gk, b, hand, i, n);
    }
  }

  lemma PairsBeforeSplit(hand: seq<char>, n: nat)
    requires 0 < n <= |hand|
    ensures PairsBefore(hand, n) == PairsBefore(hand, n - 1) + PairsLedBy(hand, n - 1, |hand|)
  {
  }

  /** One turn of the outer loop: all the pairs led by tile `n - 1`. */
  lemma RowStep(gk: GateKeeper, b: Best, hand: seq<char>, n: nat)
    requires 0 < n <= |hand|
    ensures Run(gk, b, PairsBefore(hand, n)) == Run(gk, Run(gk, b, PairsBefore(hand, n - 1)), PairsLedBy(hand, n - 1, |hand|))
  {
    PairsBeforeSplit(hand, n);
    RunAppend(gk, b, PairsBefore(hand, n - 1), PairsLedBy(hand, n - 1, |hand|));
  }

  /** The outer loop of `findTwoTileMove` over its first `n` rows, from `b`. */
  function RowsRun(gk: GateKeeper, b: Best, hand: seq<char>, n: nat): Best
  {
    if n == 0 || n > |hand| then b else Run(gk, RowsRun(gk, b, hand, n - 1), PairsLedBy(hand, n - 1, |hand|))
  }

  lemma {:induction false} RowsRunIsRun(gk: GateKeeper, b: Best, hand: seq<char>, n: nat)
    requires n <= |hand|
    ensures RowsRun(gk, b, hand, n) == Run(gk, b, PairsBefore(hand, n))
  {
    if n > 0 {
      RowsRunIsRun(gk, b, hand, n - 1);
      RowStep(gk, b, hand, n);
    }
  }

  /** The best word at the centre decides the move as the best placement does. */
  lemma DecideAtCentre(gk: GateKeeper, ps: seq<Placement>, score: int, word: Option<string>)
    requires Best(score, AtCentre(word)) == Run(gk, NO_BEST, ps)
    ensures score > -1 <==> word.Some?
    ensures Decide(Run(gk, NO_BEST, ps)) == if word.Some? then PlayWord(word.value, CENTER, Horizontal) else ExchangeTiles(ALL_TILES)
  {
    ChoiceIffScored(gk, ps);
  }

  /** The inner loop of `findTwoTileMove`: every pair led by tile `i`. */
  method TryRow(gk: GateKeeper, hand: seq<char>, i: nat, bestScore: int, bestWord: Option<string>)
    returns (score': int, word': Option<string>)
    requires i < |hand|
    ensures Best(score', AtCentre(word')) == Run(gk, Best(bestScore, AtCentre(bestWord)), PairsLedBy(hand, i, |hand|))
  {
    ghost var row := Best(bestScore, AtCentre(bestWord));
    score', word' := bestScore, bestWord;
    var j := 0;
    while j < |hand|
      invariant 0 <= j <= |hand|
      invariant Best(score', AtCentre(word')) == PairsLedByRun(gk, row, hand, i, j)
    {
      score', word' := TryPair(gk, hand, i, j, score', word');
      j := j + 1;
    }
    PairsLedByRunIsRun(gk, row, hand, i, |hand|);
  }

  /** One turn of the inner loop of `findTwoTileMove`. */
  method TryPair(gk: GateKeeper, hand: seq<char>, i: nat, j: nat, bestScore: int, bestWord: Option<string>)
    returns (score': int, word': Option<string>)
    requires i < |hand| && j < |hand|
    ensures Best(score', AtCentre(word')) ==
              if i != j then Improve(gk, Best(bestScore, AtCentre(bestWord)), Placement(PairWord(hand, i, j), CENTER, Horizontal))
              else Best(bestScore, AtCentre(bestWord))
  {
    score', word' := bestScore, bestWord;
    if i != j {
      var a := AsTile(hand[i]);
      var b := AsTile(hand[j]);
      var word := [a, b];
      if gk.legal(word, CENTER, Horizontal) {
        var score := gk.score(word, CENTER, Horizontal);
        if score > bestScore {
          score' := score;
          word' := Some(word);
        }
      }
    }
  }

  /** `findTwoTileMove`: every ordered pair of distinct tiles as a two-letter
      word across from the centre; the first with the highest legal score is
      played. */
  method FindTwoTileMove(gk: GateKeeper) returns (m: ScrabbleMove)
    ensures m == Decide(Run(gk, NO_BEST, TwoTileCandidates(gk.hand)))
  {
    var bestScore, bestWord := SearchPairs(gk, gk.hand);
    DecideAtCentre(gk, TwoTileCandidates(gk.hand), bestScore, bestWord);
    if bestScore > -1 {
      return PlayWord(bestWord.value, CENTER, Horizontal);
    }
    return ExchangeTiles(ALL_TILES);
  }

  /** The two loops of `findTwoTileMove`: the best score and word. */
  method SearchPairs(gk: GateKeeper, hand: seq<char>) returns (bestScore: int, bestWord: Option<string>)
    ensures Best(bestScore, AtCentre(bestWord)) == Run(gk, NO_BEST, TwoTileCandidates(hand))
  {
    bestWord := None;
    bestScore := -1;
    var i := 0;
    while i < |hand|
      invariant 0 <= i <= |hand|
      invariant Best(bestScore, AtCentre(bestWord)) == RowsRun(gk, NO_BEST, hand, i)
    {
      bestScore, bestWord := TryRow(gk, hand, i, bestScore, bestWord);
      i := i + 1;
    }
    RowsRunIsRun(gk, NO_BEST, hand, |hand|);
  }

  const AXES: seq<Axis> := [Horizontal, Vertical]

  /** The squares in both directions, in the order of the row, column and
      direction loops: place `q` is row `q / 30`, column `q % 30 / 2` and
      direction `q % 2` (30 places to a row of 15 squares). */
  const PLACES: nat := 450

  function PlaceAt(word: string, q: nat): Placement {
    Placement(word, Location(q / 30, q % 30 / 2), AXES[q % 2])
  }

  /** Place `row * 30 + col * 2 + d` is the square (row, col) in direction `d`. */
  lemma PlaceAtIs(word: string, q: nat, row: int, col: int, d: int)
    requires 0 <= row < WIDTH && 0 <= col < WIDTH && 0 <= d < |AXES| && q == row * 30 + col * 2 + d
    ensures PlaceAt(word, q) == Placement(word, Location(row, col), AXES[d])
  {
    assert q / 30 == row && q % 30 == col * 2 + d;
    assert (col * 2 + d) / 2 == col && q % 2 == d;
  }

  /** The first `n` places, with the word. */
  function PlacesOf(word: string, n: nat): seq<Placement> {
    if n == 0 then [] else PlacesOf(word, n - 1) + [PlaceAt(word, n - 1)]
  }

  lemma {:induction false} PlacesOfAt(word: string, n: nat)
    ensures |PlacesOf(word, n)| == n
    ensures forall q :: 0 <= q < n ==> PlacesOf(word, n)[q] == PlaceAt(word, q)
  {
    if n > 0 {
      PlacesOfAt(word, n - 1);
    }
  }

  /** The places hold the word at every square of the board in both
      directions, and nothing else. */
  lemma PlacesOfAre(word: string, p: Placement)
    ensures p in PlacesOf(word, PLACES) <==> p.word == word && OnBoard(p.location)
  {
    var ps := PlacesOf(word, PLACES);
    PlacesOfAt(word, PLACES);
    if p in ps {
      var q :| 0 <= q < |ps| && ps[q] == p;
      assert p == PlaceAt(word, q);
      assert 0 <= q / 30 < WIDTH && 0 <= q % 30 / 2 < WIDTH;
    }
    if p.word == word && OnBoard(p.location) {
      var d := if p.direction == Horizontal then 0 else 1;
      var q := p.location.row * 30 + p.location.col * 2 + d;
      PlaceAtIs(word, q, p.location.row, p.location.col, d);
      assert ps[q] == p;
    }
  }

  /** The tile before and after a gap: `c + " "` and `" " + c`. */
  function OneTileWords(c: char): seq<string> {
    [[AsTile(c), ' '], [' ', AsTile(c)]]
  }

  /** The first `n` words of tile `c` at every place. */
  function WordsOf(c: char, n: nat): seq<Placement>
  {
    if n == 0 || n > 2 then [] else WordsOf(c, n - 1) + PlacesOf(OneTileWords(c)[n - 1], PLACES)
  }

  /** The first `n` tiles of the hand, each with its words at every place. */
  function TilesOf(hand: seq<char>, n: nat): seq<Placement>
  {
    if n == 0 || n > |hand| then [] else TilesOf(hand, n - 1) + WordsOf(hand[n - 1], 2)
  }

  /** What `findOneTileMove` tries, in its order. */
  function OneTileCandidates(hand: seq<char>): seq<Placement> {
    TilesOf(hand, |hand|)
  }

  lemma InAppend(a: seq<Placement>, b: seq<Placement>, p: Placement)
    ensures p in a + b <==> p in a || p in b
  {
  }

  lemma WordsStep(p: Placement, words: seq<string>, n: nat, inAll: bool, inEarlier: bool, inLast: bool)
    requires 0 < n <= |words|
    requires inAll <==> inEarlier || inLast
    requires inEarlier <==> p.word in words[..n - 1] && OnBoard(p.location)
    requires inLast <==> p.word == words[n - 1] && OnBoard(p.location)
    ensures inAll <==> p.word in words[..n] && OnBoard(p.location)
  {
    assert words[..n] == words[..n - 1] + [words[n - 1]];
  }

  lemma {:induction false} WordsOfAre(c: char, n: nat, p: Placement)
    requires n <= 2
    ensures p in WordsOf(c, n) <==> p.word in OneTileWords(c)[..n] && OnBoard(p.location)
  {
    if n > 0 {
      var earlier := WordsOf(c, n - 1);
      var last := PlacesOf(OneTileWords(c)[n - 1], PLACES);
      WordsOfAre(c, n - 1, p);
      PlacesOfAre(OneTileWords(c)[n - 1], p);
      InAppend(earlier, last, p);
      WordsStep(p, OneTileWords(c), n, p in WordsOf(c, n), p in earlier, p in last);
    }
  }

  lemma TilesStep(p: Placement, hand: seq<char>, n: nat, inAll: bool, inEarlier: bool, inLast: bool)
    requires 0 < n <= |hand|
    requires inAll <==> inEarlier || inLast
    requires inEarlier <==> OnBoard(p.location) && exists k :: 0 <= k < n - 1 && p.word in OneTileWords(hand[k])
    requires inLast <==> p.word in OneTileWords(hand[n - 1])[..2] && OnBoard(p.location)
    ensures inAll <==> OnBoard(p.location) && exists k :: 0 <= k < n && p.word in OneTileWords(hand[k])
  {
    assert OneTileWords(hand[n - 1])[..2] == OneTileWords(hand[n - 1]);
    if OnBoard(p.location) && exists k :: 0 <= k < n && p.word in OneTileWords(hand[k]) {
      var k :| 0 <= k < n && p.word in OneTileWords(hand[k]);
      assert k < n - 1 || k == n - 1;
    }
  }

  lemma {:induction false} TilesOfAre(hand: seq<char>, n: nat, p: Placement)
    requires n <= |hand|
    ensures p in TilesOf(hand, n) <==> OnBoard(p.location) && exists k :: 0 <= k < n && p.word in OneTileWords(hand[k])
  {
    if n > 0 {
      var earlier := TilesOf(hand, n - 1);
      var last := WordsOf(hand[n - 1], 2);
      TilesOfAre(hand, n - 1, p);
      WordsOfAre(hand[n - 1], 2, p);
      InAppend(earlier, last, p);
      TilesStep(p, hand, n, p in TilesOf(hand, n), p in earlier, p in last);
    }
  }

  /** The one-tile search tries each tile of the hand, next to a gap on
      either side, at every square of the board in both directions. */
  lemma OneTileCandidatesAre(hand: seq<char>, p: Placement)
    ensures p in OneTileCandidates(hand) <==>
              OnBoard(p.location) && exists k :: 0 <= k < |hand| && p.word in OneTileWords(hand[k])
  {
    TilesOfAre(hand, |hand|, p);
  }

  /** The row, column and direction loops of `findOneTileMove` over their
      first `n` places. */
  function PlacesRun(gk: GateKeeper, b: Best, word: string, n: nat): Best {
    if n == 0 then b else Improve(gk, PlacesRun(gk, b, word, n - 1), PlaceAt(word, n - 1))
  }

  /** The word loop over its first `n` steps. */
  function WordsRun(gk: GateKeeper, b: Best, c: char, n: nat): Best
  {
    if n == 0 || n > 2 then b else PlacesRun(gk, WordsRun(gk, b, c, n - 1), OneTileWords(c)[n - 1], PLACES)
  }

  /** The tile loop over its first `n` steps. */
  function TilesRun(gk: GateKeeper, b: Best, hand: seq<char>, n: nat): Best
  {
    if n == 0 || n > |hand| then b else WordsRun(gk, TilesRun(gk, b, hand, n - 1), hand[n - 1], 2)
  }

  /** The direction loop at one square over its first `d` directions. */
  function SquareRun(gk: GateKeeper, b: Best, word: string, row: int, col: int, d: nat): Best
  {
    if d == 0 || d > |AXES| then b else Improve(gk, SquareRun(gk, b, word, row, col, d - 1), Placement(word, Location(row, col), AXES[d - 1]))
  }

  /** The two directions at (row, col) are the next two places. */
  lemma PlacesRunSquare(gk: GateKeeper, b: Best, word: string, q: nat, row: int, col: int)
    requires 0 <= row < WIDTH && 0 <= col < WIDTH && q == row * 30 + col * 2
    ensures PlacesRun(gk, b, word, q + 2) == SquareRun(gk, PlacesRun(gk, b, word, q), word, row, col, 2)
  {
    PlaceAtIs(word, q, row, col, 0);
    PlaceAtIs(word, q + 1, row, col, 1);
    assert PlacesRun(gk, b, word, q + 1) == SquareRun(gk, PlacesRun(gk, b, word, q), word, row, col, 1);
  }

  lemma {:induction false} PlacesRunIsRun(gk: GateKeeper, b: Best, word: string, n: nat)
    ensures PlacesRun(gk, b, word, n) == Run(gk, b, PlacesOf(word, n))
  {
    if n > 0 {
      PlacesRunIsRun(gk, b, word, n - 1);
      RunSnoc(gk, b, PlacesOf(word, n - 1), PlaceAt(word, n - 1));
    }
  }

  lemma WordsOfSplit(c: char, n: nat)
    requires 0 < n <= 2
    ensures WordsOf(c, n) == WordsOf(c, n - 1) + PlacesOf(OneTileWords(c)[n - 1], PLACES)
  {
  }

  lemma TilesOfSplit(hand: seq<char>, n: nat)
    requires 0 < n <= |hand|
    ensures TilesOf(hand, n) == TilesOf(hand, n - 1) + WordsOf(hand[n - 1], 2)
  {
  }

  lemma {:induction false} WordsRunIsRun(gk: GateKeeper, b: Best, c: char, n: nat)
    requires n <= 2
    ensures WordsRun(gk, b, c, n) == Run(gk, b, WordsOf(c, n))
  {
    if n > 0 {
      WordsRunIsRun(gk, b, c, n - 1);
      var mid := WordsRun(gk, b, c, n - 1);
      PlacesRunIsRun(gk, mid, OneTileWords(c)[n - 1], PLACES);
      WordsOfSplit(c, n);
      RunStep(gk, b, WordsOf(c, n - 1), PlacesOf(OneTileWords(c)[n - 1], PLACES), WordsOf(c, n),
              mid, WordsRun(gk, b, c, n));
    }
  }

  /** The loops of `findOneTileMove` try the one-tile candidates in order. */
  lemma {:induction false} TilesRunIsRun(gk: GateKeeper, b: Best, hand: seq<char>, n: nat)
    requires n <= |hand|
    ensures TilesRun(gk, b, hand, n) == Run(gk, b, TilesOf(hand, n))
  {
    if n > 0 {
      var mid := TilesRun(gk, b, hand, n - 1);
      var earlier, last := TilesOf(hand, n - 1), WordsOf(hand[n - 1], 2);
      assert Run(gk, b, earlier) == mid by {
        TilesRunIsRun(gk, b, hand, n - 1);
      }
      assert Run(gk, mid, last) == TilesRun(gk, b, hand, n) by {
        WordsRunIsRun(gk, mid, hand[n - 1], 2);
      }
      TilesOfSplit(hand, n);
      RunStep(gk, b, earlier, last, TilesOf(hand, n), mid, TilesRun(gk, b, hand, n));
    }
  }

  /** The direction loop of `findOneTileMove` at one square: the word is
      tried across, then down, and kept when legal and strictly better. */
  method TrySquare(gk: GateKeeper, word: string, row: int, col: int, ghost bw: Best, ghost q: nat,
                   score0: int, move0: Option<Placement>)
    returns (bestScore: int, bestMove: Option<Placement>)
    requires 0 <= row < WIDTH && 0 <= col < WIDTH && q == row * 30 + col * 2
    requires Best(score0, move0) == PlacesRun(gk, bw, word, q)
    ensures Best(bestScore, bestMove) == PlacesRun(gk, bw, word, q + 2)
  {
    bestScore, bestMove := score0, move0;
    var location := Location(row, col);
    var d := 0;
    while d < |AXES|
      invariant 0 <= d <= |AXES|
      invariant Best(bestScore, bestMove) == SquareRun(gk, Best(score0, move0), word, row, col, d)
    {
      var direction := AXES[d];
      if gk.legal(word, location, direction) {
        var score := gk.score(word, location, direction);
        if score > bestScore {
          bestScore := score;
          bestMove := Some(Placement(word, location, direction));
        }
      }
      d := d + 1;
    }
    PlacesRunSquare(gk, bw, word, q, row, col);
  }

  /** The row and column loops of `findOneTileMove` for one word: every
      square of the board, row by row. */
  method TryWord(gk: GateKeeper, word: string, ghost bw: Best, score0: int, move0: Option<Placement>)
    returns (bestScore: int, bestMove: Option<Placement>)
    requires Best(score0, move0) == bw
    ensures Best(bestScore, bestMove) == PlacesRun(gk, bw, word, PLACES)
  {
    bestScore, bestMove := score0, move0;
    ghost var q := 0;
    var row := 0;
    while row < WIDTH
      invariant 0 <= row <= WIDTH && q == row * 30
      invariant Best(bestScore, bestMove) == PlacesRun(gk, bw, word, q)
    {
      var col := 0;
      while col < WIDTH
        invariant 0 <= col <= WIDTH && q == row * 30 + col * 2
        invariant Best(bestScore, bestMove) == PlacesRun(gk, bw, word, q)
      {
        bestScore, bestMove := TrySquare(gk, word, row, col, bw, q, bestScore, bestMove);
        q := q + 2;
        col := col + 1;
      }
      row := row + 1;
    }
  }

  /** `findOneTileMove`: every tile of the hand beside a gap, at every square
      in both directions; the first with the highest legal score is played. */
  method FindOneTileMove(gk: GateKeeper) returns (m: ScrabbleMove)
    ensures m == Decide(Run(gk, NO_BEST, OneTileCandidates(gk.hand)))
  {
    var hand := gk.hand;
    var bestMove: Option<Placement> := None;
    var bestScore := -1;
    var k := 0;
    while k < |hand|
      invariant 0 <= k <= |hand|
      invariant Best(bestScore, bestMove) == TilesRun(gk, NO_BEST, hand, k)
    {
      var c := AsTile(hand[k]);
      var words := [[c, ' '], [' ', c]];
      ghost var b := TilesRun(gk, NO_BEST, hand, k);
      var w := 0;
      while w < |words|
        invariant 0 <= w <= |words| && words == OneTileWords(hand[k])
        invariant Best(bestScore, bestMove) == WordsRun(gk, b, hand[k], w)
      {
        bestScore, bestMove := TryWord(gk, words[w], WordsRun(gk, b, hand[k], w), bestScore, bestMove);
        w := w + 1;
      }
      k := k + 1;
    }
    TilesRunIsRun(gk, NO_BEST, hand, |hand|);
    ChoiceIffScored(gk, OneTileCandidates(hand));
    if bestMove.Some? {
      return PlayWord(bestMove.value.word, bestMove.value.location, bestMove.value.direction);
    }
    return ExchangeTiles(ALL_TILES);
  }

  // ---------------------------------------------------------------------------
  // Counting arrangements

  /** `factorial`, on unbounded integers. */
  function Factorial(n: nat): (r: nat)
    ensures r >= 1
  {
    if n == 0 then 1 else
      var f := Factorial(n - 1);
      AtLeastOnce(f, n);
      n * f
  }

  /** Up to 12 the Java `int` result is exact: 12! is below 2^31. */
  lemma FactorialFitsInt(n: nat)
    requires n <= 12
    ensures Factorial(n) <= Factorial(12) == 479001600 < 0x8000_0000
  {
    FactorialOfTwelve();
    FactorialGrows(n, 12);
  }

  /** One unfolding of `Factorial`, for the concrete values below. */
  lemma FactorialStep(n: nat, previous: nat)
    requires n >= 1 && Factorial(n - 1) == previous
    ensures Factorial(n) == n * previous
  {
  }

  lemma FactorialOfTwelve()
    ensures Factorial(12) == 479001600
  {
    FactorialStep(1, 1);
    FactorialStep(2, 1);
    FactorialStep(3, 2);
    FactorialStep(4, 6);
    FactorialStep(5, 24);
    FactorialStep(6, 120);
    FactorialStep(7, 720);
    FactorialStep(8, 5040);
    FactorialStep(9, 40320);
    FactorialStep(10, 362880);
    FactorialStep(11, 3628800);
    FactorialStep(12, 39916800);
  }

  lemma {:induction false} FactorialGrows(k: nat, n: nat)
    requires k <= n
    ensures Factorial(k) <= Factorial(n)
  {
    if k < n {
      FactorialGrows(k, n - 1);
      var f := Factorial(n - 1);
      assert Factorial(n) == n * f;
      AtLeastOnce(n, f);
    }
  }

  lemma AtLeastOnce(a: nat, b: nat)
    requires a >= 1
    ensures a * b >= b
  {
  }
}
