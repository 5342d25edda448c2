/** The newest engine, `ScrabbleWinner` of the `scrabble` package: it finds
    the anchors next to the tiles on the board, walks the board and the edge
    graph of its dictionary in step from a few squares behind every anchor,
    records every word it completes, and plays the best-scoring candidate the
    board accepts. */
module Winner {
  import opened Common
  import opened EdgeGraph
  import opened MoveSelection
  import PossiBoard

  /** An anchor: a square next to a tile and the direction to build in. */
  datatype Anchor = Anchor(location: Location, direction: Axis)

  // ---------------------------------------------------------------------------
  // `buildWord`

  /** The moves `buildWord(sub, e, start, loc, d)` records, in order. `loc`
      is the square before the next one read; `e` the edge reached so far. */
  function BuildMoves(gk: GateKeeper, edges: seq<Edge>, hand: seq<char>, sub: string, e: nat,
                      start: Location, loc: Location, d: Axis): seq<Move>
    requires ValidGateKeeper(gk)
    decreases WIDTH - Coord(loc, d), 1
  {
    if !OnBoard(loc) || !OnBoard(start) || e >= |edges| then []
    else if edges[e].isLeaf then []
    else
      var next := Neighbor(loc, d);
      if !OnBoard(Neighbor(next, d)) then []
      else
        var c := Square(gk, next);
        if IsLower(c) then
          match FirstOut(edges, edges[e].out, c)
          case None => []
          case Some(e2) =>
            var sub2 := sub + [' '];
            (if edges[e2].isTerminal && (' ' in sub2 || start == CENTER) then [Scored(gk, sub2, start, d)] else [])
            + BuildMoves(gk, edges, hand, sub2, e2, start, next, d)
        else OutMoves(gk, edges, hand, sub, edges[e].out, start, loc, d)
  }

  /** The moves the loop over the out-edges `out` records when the next
      square is free. */
  function OutMoves(gk: GateKeeper, edges: seq<Edge>, hand: seq<char>, sub: string, out: seq<nat>,
                    start: Location, loc: Location, d: Axis): seq<Move>
    requires ValidGateKeeper(gk)
    decreases WIDTH - Coord(loc, d), 0, |out|
  {
    if out == [] then []
    else EdgeMoves(gk, edges, hand, sub, out[0], start, loc, d) + OutMoves(gk, edges, hand, sub, out[1..], start, loc, d)
  }

  /** One turn of that loop: an edge whose letter is in the hand extends the
      word by that letter. */
  function EdgeMoves(gk: GateKeeper, edges: seq<Edge>, hand: seq<char>, sub: string, x: nat,
                     start: Location, loc: Location, d: Axis): seq<Move>
    requires ValidGateKeeper(gk)
    decreases WIDTH - Coord(loc, d), 0, 0
  {
    if !OnBoard(loc) || x >= |edges| || edges[x].letter !in hand then []
    else
      var c := edges[x].letter;
      (if edges[x].isTerminal && (' ' in sub || start == CENTER) then [Scored(gk, sub + [c], start, d)] else [])
      + BuildMoves(gk, edges, hand, sub + [c], x, start, Neighbor(loc, d), d)
  }

  /** On the board, an out-edge whose letter is not in the hand gives
      nothing; one whose letter is records the extended word when it ends a
      word, then builds on from the next square. */
  lemma EdgeMovesOnBoard(gk: GateKeeper, edges: seq<Edge>, hand: seq<char>, sub: string, x: nat,
                         start: Location, loc: Location, d: Axis, recorded: seq<Move>)
    requires ValidGateKeeper(gk) && OnBoard(loc) && x < |edges|
    requires recorded == if edges[x].isTerminal && (' ' in sub || start == CENTER)
                         then [Scored(gk, sub + [edges[x].letter], start, d)] else []
    ensures edges[x].letter !in hand ==> EdgeMoves(gk, edges, hand, sub, x, start, loc, d) == []
    ensures edges[x].letter in hand ==>
              EdgeMoves(gk, edges, hand, sub, x, start, loc, d) ==
              recorded + BuildMoves(gk, edges, hand, sub + [edges[x].letter], x, start, Neighbor(loc, d), d)
  {
  }

  /** What a recorded candidate looks like: it starts at `start` along `d`,
      carries the board's score, extends `sub` by letters that are each a
      space (a board tile) or in the hand, and contains a space unless it
      starts at the centre. */
  predicate Recorded(gk: GateKeeper, hand: seq<char>, sub: string, start: Location, d: Axis, m: Move) {
    m.location == start && m.direction == d && m.score == gk.score(m.word, start, d) && m.play.None? &&
    (' ' in m.word || start == CENTER) &&
    |sub| < |m.word| && m.word[..|sub|] == sub &&
    forall k :: |sub| <= k < |m.word| ==> m.word[k] == ' ' || m.word[k] in hand
  }

  /** Candidates extend their prefix by the letters the walk adds. */
  lemma RecordedLonger(gk: GateKeeper, hand: seq<char>, sub: string, c: char, start: Location, d: Axis, m: Move)
    requires c == ' ' || c in hand
    requires Recorded(gk, hand, sub + [c], start, d, m)
    ensures Recorded(gk, hand, sub, start, d, m)
  {
    assert m.word[..|sub|] == m.word[..|sub| + 1][..|sub|];
  }

  /** Every move `buildWord` records has the shape of `Recorded`, and none
      reaches the last square along its direction. */
  lemma {:induction false} BuildMovesShape(gk: GateKeeper, edges: seq<Edge>, hand: seq<char>, sub: string, e: nat,
                                           start: Location, loc: Location, d: Axis)
    requires ValidGateKeeper(gk)
    requires Coord(start, d) + |sub| <= Coord(loc, d) + 1
    ensures forall m :: m in BuildMoves(gk, edges, hand, sub, e, start, loc, d) ==>
              Recorded(gk, hand, sub, start, d, m) && Coord(start, d) + |m.word| < WIDTH
    decreases WIDTH - Coord(loc, d), 1
  {
    if OnBoard(loc) && OnBoard(start) && e < |edges| && !edges[e].isLeaf {
      var next := Neighbor(loc, d);
      if OnBoard(Neighbor(next, d)) {
        var c := Square(gk, next);
        if IsLower(c) {
          var f := FirstOut(edges, edges[e].out, c);
          if f.Some? {
            var sub2 := sub + [' '];
            BuildMovesShape(gk, edges, hand, sub2, f.value, start, next, d);
            forall m | m in BuildMoves(gk, edges, hand, sub2, f.value, start, next, d)
              ensures Recorded(gk, hand, sub, start, d, m)
            {
              RecordedLonger(gk, hand, sub, ' ', start, d, m);
            }
            assert sub2[..|sub|] == sub;
          }
        } else {
          OutMovesShape(gk, edges, hand, sub, edges[e].out, start, loc, d);
        }
      }
    }
  }

  lemma {:induction false} OutMovesShape(gk: GateKeeper, edges: seq<Edge>, hand: seq<char>, sub: string, out: seq<nat>,
                                         start: Location, loc: Location, d: Axis)
    requires ValidGateKeeper(gk)
    requires Coord(start, d) + |sub| <= Coord(loc, d) + 1 && OnBoard(Neighbor(Neighbor(loc, d), d))
    ensures forall m :: m in OutMoves(gk, edges, hand, sub, out, start, loc, d) ==>
              Recorded(gk, hand, sub, start, d, m) && Coord(start, d) + |m.word| < WIDTH
    decreases WIDTH - Coord(loc, d), 0, |out|
  {
    if out != [] {
      var x := out[0];
      if OnBoard(loc) && x < |edges| && edges[x].letter in hand {
        var c := edges[x].letter;
        BuildMovesShape(gk, edges, hand, sub + [c], x, start, Neighbor(loc, d), d);
        forall m | m in BuildMoves(gk, edges, hand, sub + [c], x, start, Neighbor(loc, d), d)
          ensures Recorded(gk, hand, sub, start, d, m)
        {
          RecordedLonger(gk, hand, sub, c, start, d, m);
        }
        assert (sub + [c])[..|sub|] == sub;
      }
      OutMovesShape(gk, edges, hand, sub, out[1..], start, loc, d);
    }
  }

  /** The letters a candidate stands for, read from the square `from` on:
      its own letters, with every space replaced by the board tile it was
      matched against. */
  function Spelled(g: Grid, w: string, from: Location, d: Axis): (r: string)
    requires WellFormed(g)
    ensures |r| == |w|
    decreases |w|
  {
    if w == [] then []
    else [if w[0] == ' ' && OnBoard(from) then At(g, from) else w[0]] + Spelled(g, w[1..], Neighbor(from, d), d)
  }

  /** Spelling a word from position `i` on: its first letter, then the rest. */
  lemma SpelledFrom(g: Grid, w: string, i: nat, from: Location, d: Axis)
    requires WellFormed(g) && i < |w|
    ensures Spelled(g, w[i..], from, d) ==
            [if w[i] == ' ' && OnBoard(from) then At(g, from) else w[i]] + Spelled(g, w[i + 1..], Neighbor(from, d), d)
  {
    assert w[i..][1..] == w[i + 1..];
  }

  /** Every word `buildWord` records is a walk in the graph: read with the
      board tiles under its spaces, the letters it adds to `sub` lead from
      `e` to a terminal edge. */
  lemma {:induction false} BuildMovesSpell(gk: GateKeeper, edges: seq<Edge>, hand: seq<char>, sub: string, e: nat,
                                           start: Location, loc: Location, d: Axis)
    requires ValidGateKeeper(gk) && ' ' !in hand
    ensures forall m :: m in BuildMoves(gk, edges, hand, sub, e, start, loc, d) ==>
              |sub| < |m.word| && m.word[..|sub|] == sub &&
              Ends(edges, e, Spelled(gk.board, m.word[|sub|..], Neighbor(loc, d), d))
    decreases WIDTH - Coord(loc, d), 1
  {
    var g := gk.board;
    if OnBoard(loc) && OnBoard(start) && e < |edges| && !edges[e].isLeaf {
      var next := Neighbor(loc, d);
      if OnBoard(Neighbor(next, d)) {
        var c := Square(gk, next);
        if IsLower(c) {
          TileSpell(gk, edges, hand, sub, e, start, loc, d);
        } else {
          OutMovesSpell(gk, edges, hand, sub, edges[e].out, start, loc, d);
        }
        forall m | m in BuildMoves(gk, edges, hand, sub, e, start, loc, d)
          ensures Ends(edges, e, Spelled(g, m.word[|sub|..], next, d))
        {
          EndsViaOut(edges, e, Spelled(g, m.word[|sub|..], next, d));
        }
      }
    }
  }

  /** A single letter `ch` added to `sub` on the square `next`, matched by
      the out-edge `x`, spells a word that ends at `x` when `x` is terminal. */
  lemma StepSpellsOne(g: Grid, edges: seq<Edge>, out: seq<nat>, x: nat, sub: string, ch: char, next: Location, d: Axis)
    requires WellFormed(g) && x in out && x < |edges| && edges[x].isTerminal
    requires edges[x].letter == (if ch == ' ' && OnBoard(next) then At(g, next) else ch)
    ensures EndsVia(edges, out, Spelled(g, (sub + [ch])[|sub|..], next, d))
  {
    var sub2 := sub + [ch];
    assert Leads(edges, x, [], x);
    SpelledFrom(g, sub2, |sub|, next, d);
    assert sub2[|sub| + 1..] == [];
    EndsVia1(edges, out, x, edges[x].letter, []);
  }

  /** Moves that extend `sub + [ch]` along a walk from `x` extend `sub`
      along a walk through the out-edges `out`, when `x` is among them and
      matches the letter on `next`. */
  lemma StepSpellsRest(g: Grid, edges: seq<Edge>, out: seq<nat>, x: nat, sub: string, ch: char,
                       ms: seq<Move>, next: Location, d: Axis)
    requires WellFormed(g) && x in out && x < |edges|
    requires edges[x].letter == (if ch == ' ' && OnBoard(next) then At(g, next) else ch)
    requires forall m :: m in ms ==>
               |sub + [ch]| < |m.word| && m.word[..|sub + [ch]|] == sub + [ch] &&
               Ends(edges, x, Spelled(g, m.word[|sub + [ch]|..], Neighbor(next, d), d))
    ensures forall m :: m in ms ==>
              |sub| < |m.word| && m.word[..|sub|] == sub &&
              EndsVia(edges, out, Spelled(g, m.word[|sub|..], next, d))
  {
    forall m | m in ms
      ensures m.word[..|sub|] == sub && EndsVia(edges, out, Spelled(g, m.word[|sub|..], next, d))
    {
      StepSpellsWord(g, edges, out, x, sub, ch, m.word, next, d);
    }
  }

  /** `StepSpellsRest` for one word. */
  lemma StepSpellsWord(g: Grid, edges: seq<Edge>, out: seq<nat>, x: nat, sub: string, ch: char,
                       w: string, next: Location, d: Axis)
    requires WellFormed(g) && x in out && x < |edges|
    requires edges[x].letter == (if ch == ' ' && OnBoard(next) then At(g, next) else ch)
    requires |sub| + 1 < |w| && w[..|sub| + 1] == sub + [ch]
    requires Ends(edges, x, Spelled(g, w[|sub| + 1..], Neighbor(next, d), d))
    ensures w[..|sub|] == sub && EndsVia(edges, out, Spelled(g, w[|sub|..], next, d))
  {
    assert w[..|sub|] == w[..|sub| + 1][..|sub|];
    assert w[|sub|] == w[..|sub| + 1][|sub|];
    SpelledFrom(g, w, |sub|, next, d);
    EndsVia1(edges, out, x, edges[x].letter, Spelled(g, w[|sub| + 1..], Neighbor(next, d), d));
  }

  /** The spelling when the next square holds a tile. */
  lemma {:induction false} TileSpell(gk: GateKeeper, edges: seq<Edge>, hand: seq<char>, sub: string, e: nat,
                                     start: Location, loc: Location, d: Axis)
    requires ValidGateKeeper(gk) && ' ' !in hand
    requires OnBoard(loc) && OnBoard(start) && e < |edges| && !edges[e].isLeaf
    requires OnBoard(Neighbor(Neighbor(loc, d), d)) && IsLower(Square(gk, Neighbor(loc, d)))
    ensures forall m :: m in BuildMoves(gk, edges, hand, sub, e, start, loc, d) ==>
              |sub| < |m.word| && m.word[..|sub|] == sub &&
              EndsVia(edges, edges[e].out, Spelled(gk.board, m.word[|sub|..], Neighbor(loc, d), d))
    decreases WIDTH - Coord(loc, d), 0, 0
  {
    var next := Neighbor(loc, d);
    var f := FirstOut(edges, edges[e].out, Square(gk, next));
    if f.Some? {
      var sub2 := sub + [' '];
      if edges[f.value].isTerminal {
        StepSpellsOne(gk.board, edges, edges[e].out, f.value, sub, ' ', next, d);
      }
      BuildMovesSpell(gk, edges, hand, sub2, f.value, start, next, d);
      StepSpellsRest(gk.board, edges, edges[e].out, f.value, sub, ' ',
                     BuildMoves(gk, edges, hand, sub2, f.value, start, next, d), next, d);
    }
  }

  lemma {:induction false} OutMovesSpell(gk: GateKeeper, edges: seq<Edge>, hand: seq<char>, sub: string, out: seq<nat>,
                                         start: Location, loc: Location, d: Axis)
    requires ValidGateKeeper(gk) && ' ' !in hand
    ensures forall m :: m in OutMoves(gk, edges, hand, sub, out, start, loc, d) ==>
              |sub| < |m.word| && m.word[..|sub|] == sub &&
              EndsVia(edges, out, Spelled(gk.board, m.word[|sub|..], Neighbor(loc, d), d))
    decreases WIDTH - Coord(loc, d), 0, |out|
  {
    var g := gk.board;
    if out != [] {
      var x := out[0];
      var next := Neighbor(loc, d);
      if OnBoard(loc) && x < |edges| && edges[x].letter in hand {
        var c := edges[x].letter;
        if edges[x].isTerminal {
          StepSpellsOne(g, edges, out, x, sub, c, next, d);
        }
        BuildMovesSpell(gk, edges, hand, sub + [c], x, start, next, d);
        StepSpellsRest(g, edges, out, x, sub, c, BuildMoves(gk, edges, hand, sub + [c], x, start, next, d), next, d);
      }
      OutMovesSpell(gk, edges, hand, sub, out[1..], start, loc, d);
      forall m | m in OutMoves(gk, edges, hand, sub, out[1..], start, loc, d)
        ensures EndsVia(edges, out, Spelled(g, m.word[|sub|..], next, d))
      {
        EndsViaMore(edges, x, out[1..], Spelled(g, m.word[|sub|..], next, d));
      }
    }
  }

  // ---------------------------------------------------------------------------
  // `findWords`

  /** The out-edges of the root. */
  function RootOut(edges: seq<Edge>): seq<nat> {
    if edges == [] then [] else edges[ROOT].out
  }

  /** The start square of offset `i`: `i` squares before `l` along `d`. */
  function StartAt(l: Location, d: Axis, i: int): Location {
    Step(l, d, -i)
  }

  /** What `findWords` records from the start square `s`: from the edge of
      its letter when it holds a tile, from the root one square on when it
      does not. None when the tile's letter begins no word: `getEdge` then
      gives null and `buildWord` fails on it. */
  function StartMoves(gk: GateKeeper, edges: seq<Edge>, hand: seq<char>, s: Location, d: Axis): Option<seq<Move>>
    requires ValidGateKeeper(gk)
  {
    if !OnBoard(s) then Some([])
    else
      var letter1 := Square(gk, s);
      if IsLower(letter1) then
        match FirstOut(edges, RootOut(edges), letter1)
        case None => None
        case Some(e) => Some(BuildMoves(gk, edges, hand, [letter1], e, s, s, d))
      else Some(BuildMoves(gk, edges, hand, [], ROOT, Neighbor(s, d), s, d))
  }

  /** What `findWords(l, d)` records at its first `n` offsets, -1 .. n - 2. */
  function FindBefore(gk: GateKeeper, edges: seq<Edge>, hand: seq<char>, l: Location, d: Axis, n: nat): Option<seq<Move>>
    requires ValidGateKeeper(gk)
  {
    if n == 0 || n > 8 then Some([])
    else
      match FindBefore(gk, edges, hand, l, d, n - 1)
      case None => None
      case Some(ms) =>
        match StartMoves(gk, edges, hand, StartAt(l, d, n - 2), d)
        case None => None
        case Some(more) => Some(ms + more)
  }

  /** What `findWords(l, d)` records: offsets -1 .. 6. */
  function FindMoves(gk: GateKeeper, edges: seq<Edge>, hand: seq<char>, l: Location, d: Axis): Option<seq<Move>>
    requires ValidGateKeeper(gk)
  {
    FindBefore(gk, edges, hand, l, d, 8)
  }

  /** One more start square for `findWords`: offset `i`. */
  lemma FindBeforeNext(gk: GateKeeper, edges: seq<Edge>, hand: seq<char>, l: Location, d: Axis, i: int)
    requires ValidGateKeeper(gk) && -1 <= i < 7
    ensures var s := StartAt(l, d, i);
            (!OnBoard(s) ==> FindBefore(gk, edges, hand, l, d, i + 2) == FindBefore(gk, edges, hand, l, d, i + 1)) &&
            (OnBoard(s) && FindBefore(gk, edges, hand, l, d, i + 1).Some? ==>
               FindBefore(gk, edges, hand, l, d, i + 2) ==
                 match StartMoves(gk, edges, hand, s, d)
                 case None => None
                 case Some(more) => Some(FindBefore(gk, edges, hand, l, d, i + 1).value + more))
  {
    if !OnBoard(StartAt(l, d, i)) && FindBefore(gk, edges, hand, l, d, i + 1).Some? {
      assert FindBefore(gk, edges, hand, l, d, i + 1).value + [] == FindBefore(gk, edges, hand, l, d, i + 1).value;
    }
  }

  /** Once `buildWord` has failed, `findWords` fails. */
  lemma {:induction false} FindBeforeFails(gk: GateKeeper, edges: seq<Edge>, hand: seq<char>, l: Location, d: Axis, n: nat, m: nat)
    requires ValidGateKeeper(gk) && 1 <= n <= m <= 8
    requires FindBefore(gk, edges, hand, l, d, n).None?
    ensures FindBefore(gk, edges, hand, l, d, m).None?
    decreases m
  {
    if m > n {
      FindBeforeFails(gk, edges, hand, l, d, n, m - 1);
    }
  }

  // ---------------------------------------------------------------------------
  // The anchor scan of `betterMove`

  /** The three stacks the scan fills: rows and columns that hold an anchor
      (each pushed once) and the anchors, in the order they are found. */
  datatype Stacks = Stacks(rows: seq<int>, cols: seq<int>, anchors: seq<Anchor>)

  const NO_STACKS: Stacks := Stacks([], [], [])

  /** `if (!s.contains(x)) s.push(x)`. */
  function PushNew(s: seq<int>, x: int): seq<int> {
    if x in s then s else s + [x]
  }

  /** The scan at the square (`row`, `col`): a tile whose square above is
      free gives a vertical anchor there, a tile whose square to the left is
      free a horizontal one. */
  function VisitSquare(g: Grid, st: Stacks, row: int, col: int): Stacks {
    if !WellFormed(g) || !(1 <= row < WIDTH && 1 <= col < WIDTH) then st
    else
      var t := Location(row, col);
      if !IsLower(At(g, t)) then st
      else
        var above := Antineighbor(t, Vertical);
        var left := Antineighbor(t, Horizontal);
        var st1 := if IsLower(At(g, above)) then st
                   else st.(cols := PushNew(st.cols, col), anchors := st.anchors + [Anchor(above, Vertical)]);
        if IsLower(At(g, left)) then st1
        else st1.(rows := PushNew(st1.rows, row), anchors := st1.anchors + [Anchor(left, Horizontal)])
  }

  /** The scan of row `row`, columns 1 .. n - 1. */
  function AnchorRow(g: Grid, st: Stacks, row: int, n: nat): Stacks {
    if n <= 1 then st else VisitSquare(g, AnchorRow(g, st, row, n - 1), row, n - 1)
  }

  /** The scan of rows 1 .. n - 1. */
  function AnchorRows(g: Grid, st: Stacks, n: nat): Stacks {
    if n <= 1 then st else AnchorRow(g, AnchorRows(g, st, n - 1), n - 1, WIDTH)
  }

  /** The stacks after the scan of a turn, which starts from empty stacks.
      Row 0 and column 0 are never scanned. */
  function ScanAnchors(g: Grid): Stacks {
    AnchorRows(g, NO_STACKS, WIDTH)
  }

  // ---------------------------------------------------------------------------
  // `send` and the turn

  /** The first legal move of the list. */
  function FirstLegal(gk: GateKeeper, ms: seq<Move>): Option<Move> {
    if ms == [] then None
    else if Legal(gk, ms[0]) then Some(ms[0])
    else FirstLegal(gk, ms[1..])
  }

  /** What `send` plays: the first legal move once the candidates are sorted
      by descending score, or an exchange of every tile. */
  function SendOutcome(gk: GateKeeper, ms: seq<Move>): ScrabbleMove {
    match FirstLegal(gk, SortByScore(ms))
    case Some(m) => PlayWord(m.word, m.location, m.direction)
    case None => ExchangeTiles(ALL_TILES)
  }

  /** What `betterMove` records: `findWords` at every anchor, in order. None
      when one of them fails. */
  function AnchorMoves(gk: GateKeeper, edges: seq<Edge>, hand: seq<char>, anchors: seq<Anchor>): Option<seq<Move>>
    requires ValidGateKeeper(gk)
  {
    if anchors == [] then Some([])
    else
      match AnchorMoves(gk, edges, hand, anchors[..|anchors| - 1])
      case None => None
      case Some(ms) =>
        var a := anchors[|anchors| - 1];
        match FindMoves(gk, edges, hand, a.location, a.direction)
        case None => None
        case Some(more) => Some(ms + more)
  }

  /** What `betterFirstMove` records: `findWords` at the centre, down, then
      across. */
  function FirstMoves(gk: GateKeeper, edges: seq<Edge>, hand: seq<char>): Option<seq<Move>>
    requires ValidGateKeeper(gk)
  {
    match FindMoves(gk, edges, hand, CENTER, Vertical)
    case None => None
    case Some(down) =>
      match FindMoves(gk, edges, hand, CENTER, Horizontal)
      case None => None
      case Some(across) => Some(down + across)
  }

  /** The play of the found candidates; None when the search failed. */
  function Outcome(gk: GateKeeper, found: Option<seq<Move>>): Option<ScrabbleMove> {
    match found
    case None => None
    case Some(ms) => Some(SendOutcome(gk, ms))
  }

  /** The candidates `chooseMove` finds with the dictionary built from
      `words`: around the centre on the first turn, at the anchors after. */
  function TurnMoves(gk: GateKeeper, words: seq<string>): Option<seq<Move>>
    requires ValidGateKeeper(gk)
  {
    var edges := GraphOf(words);
    if FirstTurn(gk) then FirstMoves(gk, edges, gk.hand)
    else AnchorMoves(gk, edges, gk.hand, ScanAnchors(gk.board).anchors)
  }

  /** What `chooseMove` returns; None when it fails with a null edge. */
  function Turn(gk: GateKeeper, words: seq<string>): Option<ScrabbleMove>
    requires ValidGateKeeper(gk)
  {
    Outcome(gk, TurnMoves(gk, words))
  }

  /** Once `findWords` has failed at an anchor, `betterMove` fails. */
  lemma {:induction false} AnchorMovesFail(gk: GateKeeper, edges: seq<Edge>, hand: seq<char>, anchors: seq<Anchor>, n: nat)
    requires ValidGateKeeper(gk) && 1 <= n <= |anchors|
    requires AnchorMoves(gk, edges, hand, anchors[..n]).None?
    ensures AnchorMoves(gk, edges, hand, anchors).None?
    decreases |anchors| - n
  {
    if n < |anchors| {
      assert anchors[..n + 1][..n] == anchors[..n];
      AnchorMovesFail(gk, edges, hand, anchors, n + 1);
    } else {
      assert anchors[..n] == anchors;
    }
  }

  // ---------------------------------------------------------------------------
  // The engine

  /** The engine's state. The word file is `wordList`; the stacks of the
      anchor scan, the candidates and the hand are replaced on every turn. */
  class ScrabbleWinner {
    var rows: seq<int>
    var cols: seq<int>
    var anchors: seq<Anchor>
    var dictionary: DictGraph
    var moves: seq<Move>
    var hand: seq<char>
    const wordList: seq<string>

    /** The dictionary is the graph of the word file. */
    ghost predicate Valid()
      reads this, dictionary
    {
      dictionary.Valid() && dictionary.words == wordList && dictionary.edges == GraphOf(wordList)
    }

    /** `setGateKeeper`, which calls `Start`: the word file is given as the
        list of its words. */
    constructor (words: seq<string>)
      requires forall i :: 0 <= i < |words| ==> |words[i]| >= 1
      ensures Valid() && wordList == words
    {
      wordList := words;
      rows, cols, anchors, moves, hand := [], [], [], [], [];
      dictionary := new DictGraph(words);
    }

    /** `Start`: a new dictionary, built from the word file again. */
    method Start()
      requires Valid()
      modifies this`dictionary
      ensures Valid() && fresh(dictionary)
    {
      assert Holds(dictionary.edges, wordList);
      assert forall i :: 0 <= i < |wordList| ==> ChainAt(dictionary.edges, dictionary.edges[ROOT].out[i], wordList[i]);
      dictionary := new DictGraph(wordList);
    }

    /** `buildWord`, recursively appending what it finds to `moves`. */
    method BuildWord(gk: GateKeeper, sub: string, e: nat, start: Location, loc: Location, d: Axis)
      requires ValidGateKeeper(gk) && Linked(dictionary.edges) && e < |dictionary.edges|
      modifies this`moves
      ensures moves == old(moves) + BuildMoves(gk, dictionary.edges, hand, sub, e, start, loc, d)
      decreases WIDTH - Coord(loc, d), 2
    {
      if !OnBoard(loc) || !OnBoard(start) {
        return;
      }
      if dictionary.edges[e].isLeaf {
        return;
      }
      var location := Neighbor(loc, d);
      if !OnBoard(Neighbor(location, d)) {
        return;
      }
      var nextLetter := Square(gk, location);
      if IsLower(nextLetter) {
        FollowTile(gk, sub, e, start, loc, d);
      } else {
        TryOutEdges(gk, sub, e, start, loc, d);
      }
    }

    /** `buildWord` when the next square holds a tile: the edge carrying its
        letter, if there is one, and a space in the word. */
    method FollowTile(gk: GateKeeper, sub: string, e: nat, start: Location, loc: Location, d: Axis)
      requires ValidGateKeeper(gk) && Linked(dictionary.edges) && e < |dictionary.edges|
      requires OnBoard(loc) && OnBoard(start) && !dictionary.edges[e].isLeaf
      requires OnBoard(Neighbor(Neighbor(loc, d), d)) && IsLower(Square(gk, Neighbor(loc, d)))
      modifies this`moves
      ensures moves == old(moves) + BuildMoves(gk, dictionary.edges, hand, sub, e, start, loc, d)
      decreases WIDTH - Coord(loc, d), 1
    {
      var edges := dictionary.edges;
      var location := Neighbor(loc, d);
      var nextLetter := Square(gk, location);
      var out := edges[e].out;
      var letterFound := false;
      for k := 0 to |out|
        invariant letterFound <==> exists j :: 0 <= j < k && edges[out[j]].letter == nextLetter
      {
        if edges[out[k]].letter == nextLetter {
          letterFound := true;
        }
      }
      FirstOutNone(edges, out, nextLetter);
      if !letterFound {
        return;
      }
      var found := dictionary.GetEdge(e, nextLetter);
      var edge := found.value;
      var subWord := sub + [' '];
      if edges[edge].isTerminal {
        if ' ' in subWord || start == CENTER {
          moves := moves + [Scored(gk, subWord, start, d)];
        }
      }
      BuildWord(gk, subWord, edge, start, location, d);
    }

    /** `buildWord` when the next square is free: every out-edge whose letter
        is in the hand, in order. */
    method TryOutEdges(gk: GateKeeper, sub: string, e: nat, start: Location, loc: Location, d: Axis)
      requires ValidGateKeeper(gk) && Linked(dictionary.edges) && e < |dictionary.edges|
      requires OnBoard(loc) && OnBoard(start) && !dictionary.edges[e].isLeaf
      requires OnBoard(Neighbor(Neighbor(loc, d), d)) && !IsLower(Square(gk, Neighbor(loc, d)))
      modifies this`moves
      ensures moves == old(moves) + BuildMoves(gk, dictionary.edges, hand, sub, e, start, loc, d)
      decreases WIDTH - Coord(loc, d), 1
    {
      var edges := dictionary.edges;
      var location := Neighbor(loc, d);
      var out := edges[e].out;
      for k := 0 to |out|
        invariant moves + OutMoves(gk, edges, hand, sub, out[k..], start, loc, d) ==
                  old(moves) + OutMoves(gk, edges, hand, sub, out, start, loc, d)
      {
        assert out[k..][1..] == out[k + 1..];
        TryEdge(gk, sub, out[k], start, loc, d);
      }
      assert out[|out|..] == [];
    }

    /** One turn of the loop over the out-edges. */
    method TryEdge(gk: GateKeeper, sub: string, edgeOut: nat, start: Location, loc: Location, d: Axis)
      requires ValidGateKeeper(gk) && Linked(dictionary.edges) && edgeOut < |dictionary.edges|
      requires OnBoard(loc) && OnBoard(start)
      modifies this`moves
      ensures moves == old(moves) + EdgeMoves(gk, dictionary.edges, hand, sub, edgeOut, start, loc, d)
      decreases WIDTH - Coord(loc, d), 0
    {
      var edges := dictionary.edges;
      var letter := edges[edgeOut].letter;
      var word := sub + [letter];
      var recorded: seq<Move> :=
        if edges[edgeOut].isTerminal && (' ' in sub || start == CENTER) then [Scored(gk, word, start, d)] else [];
      EdgeMovesOnBoard(gk, edges, hand, sub, edgeOut, start, loc, d, recorded);
      if letter !in hand {
        return;
      }
      ghost var rest := BuildMoves(gk, edges, hand, word, edgeOut, start, Neighbor(loc, d), d);
      moves := moves + recorded;
      BuildWord(gk, word, edgeOut, start, Neighbor(loc, d), d);
      assert old(moves) + recorded + rest == old(moves) + (recorded + rest);
    }

    /** One turn of the loop of `findWords`, at an on-board start square. */
    method TryStart(gk: GateKeeper, start: Location, d: Axis) returns (ok: bool)
      requires ValidGateKeeper(gk) && Linked(dictionary.edges) && OnBoard(start)
      modifies this`moves
      ensures var r := StartMoves(gk, dictionary.edges, hand, start, d);
              ok == r.Some? && (ok ==> moves == old(moves) + r.value)
    {
      var letter1 := Square(gk, start);
      if IsLower(letter1) {
        var first := dictionary.GetEdge(ROOT, letter1);
        if first.None? {
          return false;
        }
        BuildWord(gk, [letter1], first.value, start, start, d);
      } else {
        BuildWord(gk, [], ROOT, Neighbor(start, d), start, d);
      }
      return true;
    }

    /** `findWords`: `buildWord` from every start square at offsets -1 .. 6
        behind `l` that is on the board. False when `buildWord` fails. */
    method FindWords(gk: GateKeeper, l: Location, d: Axis) returns (ok: bool)
      requires ValidGateKeeper(gk) && Linked(dictionary.edges)
      modifies this`moves
      ensures var r := FindMoves(gk, dictionary.edges, hand, l, d);
              ok == r.Some? && (ok ==> moves == old(moves) + r.value)
    {
      for i := -1 to 7
        invariant var r := FindBefore(gk, dictionary.edges, hand, l, d, i + 1);
                  r.Some? && moves == old(moves) + r.value
      {
        FindBeforeNext(gk, dictionary.edges, hand, l, d, i);
        var row, col := l.row, l.col;
        if d == Horizontal {
          col := l.col - i;
        } else {
          row := l.row - i;
        }
        if row < 0 || row >= 15 || col < 0 || col >= 15 {
          continue;
        }
        var start := Location(row, col);
        assert start == StartAt(l, d, i);
        ok := TryStart(gk, start, d);
        if !ok {
          FindBeforeFails(gk, dictionary.edges, hand, l, d, i + 2, 8);
          return;
        }
      }
      return true;
    }

    /** The scan of `betterMove`: every square of rows and columns 1 .. 14. */
    method FindAnchors(gk: GateKeeper)
      requires ValidGateKeeper(gk)
      modifies this`rows, this`cols, this`anchors
      ensures Stacks(rows, cols, anchors) == AnchorRows(gk.board, old(Stacks(rows, cols, anchors)), WIDTH)
    {
      ghost var st0 := Stacks(rows, cols, anchors);
      for row := 1 to WIDTH
        invariant Stacks(rows, cols, anchors) == AnchorRows(gk.board, st0, row)
      {
        for col := 1 to WIDTH
          invariant Stacks(rows, cols, anchors) == AnchorRow(gk.board, AnchorRows(gk.board, st0, row), row, col)
        {
          VisitAt(gk, row, col);
        }
      }
    }

    /** One square of the scan. */
    method VisitAt(gk: GateKeeper, row: int, col: int)
      requires ValidGateKeeper(gk) && 1 <= row < WIDTH && 1 <= col < WIDTH
      modifies this`rows, this`cols, this`anchors
      ensures Stacks(rows, cols, anchors) == VisitSquare(gk.board, old(Stacks(rows, cols, anchors)), row, col)
    {
      var t := Location(row, col);
      if !IsLower(Square(gk, t)) {
        return;
      }
      var test := Square(gk, Antineighbor(t, Vertical));
      if !IsLower(test) {
        if col !in cols {
          cols := cols + [col];
        }
        anchors := anchors + [Anchor(Antineighbor(t, Vertical), Vertical)];
      }
      test := Square(gk, Antineighbor(t, Horizontal));
      if !IsLower(test) {
        if row !in rows {
          rows := rows + [row];
        }
        anchors := anchors + [Anchor(Antineighbor(t, Horizontal), Horizontal)];
      }
    }

    /** `send`: sorts the candidates by descending score and plays the first
        one the board accepts, or exchanges every tile. */
    method Send(gk: GateKeeper) returns (r: ScrabbleMove)
      modifies this`moves
      ensures moves == SortByScore(old(moves))
      ensures r == SendOutcome(gk, old(moves))
    {
      moves := SortByScore(moves);
      for i := 0 to |moves|
        invariant FirstLegal(gk, moves[i..]) == FirstLegal(gk, moves)
      {
        assert moves[i..][1..] == moves[i + 1..];
        if gk.legal(moves[i].word, moves[i].location, moves[i].direction) {
          return PlayWord(moves[i].word, moves[i].location, moves[i].direction);
        }
      }
      assert moves[|moves|..] == [];
      return ExchangeTiles(ALL_TILES);
    }

    /** The loop of `betterMove` over the anchors, each given to `findWords`. */
    method WordsAtAnchors(gk: GateKeeper) returns (ok: bool)
      requires ValidGateKeeper(gk) && Linked(dictionary.edges)
      modifies this`moves
      ensures var r := AnchorMoves(gk, dictionary.edges, hand, anchors);
              ok == r.Some? && (ok ==> moves == old(moves) + r.value)
    {
      for i := 0 to |anchors|
        invariant var r := AnchorMoves(gk, dictionary.edges, hand, anchors[..i]);
                  r.Some? && moves == old(moves) + r.value
      {
        assert anchors[..i + 1][..i] == anchors[..i];
        ok := FindWords(gk, anchors[i].location, anchors[i].direction);
        if !ok {
          AnchorMovesFail(gk, dictionary.edges, hand, anchors, i + 1);
          return;
        }
      }
      assert anchors[..|anchors|] == anchors;
      return true;
    }

    /** `betterMove`: the scan, `findWords` at every anchor, then `send`. */
    method BetterMove(gk: GateKeeper) returns (r: Option<ScrabbleMove>)
      requires ValidGateKeeper(gk) && Linked(dictionary.edges)
      modifies this`rows, this`cols, this`anchors, this`moves
      ensures Stacks(rows, cols, anchors) == AnchorRows(gk.board, old(Stacks(rows, cols, anchors)), WIDTH)
      ensures var found := AnchorMoves(gk, dictionary.edges, hand, anchors);
              r == Outcome(gk, found) && (found.Some? ==> moves == SortByScore(found.value))
    {
      FindAnchors(gk);
      moves := [];
      var ok := WordsAtAnchors(gk);
      if !ok {
        return None;
      }
      assert moves == AnchorMoves(gk, dictionary.edges, hand, anchors).value;
      var m := Send(gk);
      return Some(m);
    }

    /** `betterFirstMove`: `findWords` at the centre, down and across, then
        `send`. */
    method BetterFirstMove(gk: GateKeeper) returns (r: Option<ScrabbleMove>)
      requires ValidGateKeeper(gk) && Linked(dictionary.edges)
      modifies this`moves
      ensures var found := FirstMoves(gk, dictionary.edges, hand);
              r == Outcome(gk, found) && (found.Some? ==> moves == SortByScore(found.value))
    {
      moves := [];
      var ok := FindWords(gk, CENTER, Vertical);
      if !ok {
        return None;
      }
      ghost var down := moves;
      assert down == FindMoves(gk, dictionary.edges, hand, CENTER, Vertical).value;
      ok := FindWords(gk, CENTER, Horizontal);
      if !ok {
        return None;
      }
      assert moves == down + FindMoves(gk, dictionary.edges, hand, CENTER, Horizontal).value;
      var m := Send(gk);
      return Some(m);
    }

    /** `chooseMove`: fresh stacks and the current hand; on the first turn
        a new dictionary and `betterFirstMove`, later `betterMove`. None
        stands for the failure of a null edge. */
    method ChooseMove(gk: GateKeeper) returns (r: Option<ScrabbleMove>)
      requires Valid() && ValidGateKeeper(gk)
      modifies this
      ensures Valid() && hand == gk.hand
      ensures r == Turn(gk, wordList)
      ensures Stacks(rows, cols, anchors) == if FirstTurn(gk) then NO_STACKS else ScanAnchors(gk.board)
      ensures TurnMoves(gk, wordList).Some? ==> moves == SortByScore(TurnMoves(gk, wordList).value)
    {
      rows, cols, anchors := [], [], [];
      hand := gk.hand;
      if Square(gk, CENTER) == PossiBoard.DOUBLE_WORD_SCORE {
        Start();
        r := BetterFirstMove(gk);
        return;
      }
      r := BetterMove(gk);
    }
  }
}
