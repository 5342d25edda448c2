/** What the newest engine promises: `send` plays a legal candidate of the
    highest legal score, the anchor scan finds exactly the free squares above
    and to the left of the tiles, every candidate `findWords` records reads a
    dictionary word off the board, and a turn fails exactly when a start
    square holds a letter that begins no word. */
module WinnerProperties {
  import opened Common
  import opened EdgeGraph
  import opened MoveSelection
  import opened Winner

  // ---------------------------------------------------------------------------
  // `send`

  /** There is no first legal move exactly when no move is legal. */
  lemma {:induction false} FirstLegalNone(gk: GateKeeper, ms: seq<Move>)
    ensures FirstLegal(gk, ms).None? <==> forall i :: 0 <= i < |ms| ==> !Legal(gk, ms[i])
  {
    if ms != [] && !Legal(gk, ms[0]) {
      FirstLegalNone(gk, ms[1..]);
      assert forall i :: 1 <= i < |ms| ==> ms[i] == ms[1..][i - 1];
    }
  }

  /** The first legal move is legal and every move before it is not. */
  lemma {:induction false} FirstLegalSome(gk: GateKeeper, ms: seq<Move>)
    ensures FirstLegal(gk, ms).Some? ==>
              exists i :: 0 <= i < |ms| && ms[i] == FirstLegal(gk, ms).value && Legal(gk, ms[i]) &&
                          forall j :: 0 <= j < i ==> !Legal(gk, ms[j])
  {
    if ms != [] && !Legal(gk, ms[0]) {
      FirstLegalSome(gk, ms[1..]);
      if FirstLegal(gk, ms[1..]).Some? {
        var i :| 0 <= i < |ms[1..]| && ms[1..][i] == FirstLegal(gk, ms[1..]).value && Legal(gk, ms[1..][i]) &&
                 forall j :: 0 <= j < i ==> !Legal(gk, ms[1..][j]);
        assert ms[i + 1] == ms[1..][i];
        assert forall j :: 1 <= j < i + 1 ==> ms[j] == ms[1..][j - 1];
      }
    }
  }

  /** Keeping only the moves of the chosen move's score keeps it first. */
  lemma {:induction false} FirstLegalWithScore(gk: GateKeeper, ms: seq<Move>, m: Move)
    requires FirstLegal(gk, ms) == Some(m)
    ensures FirstLegal(gk, WithScore(ms, m.score)) == Some(m)
  {
    var v := m.score;
    if !Legal(gk, ms[0]) {
      FirstLegalWithScore(gk, ms[1..], m);
      var rest := WithScore(ms[1..], v);
      if ms[0].score == v {
        assert WithScore(ms, v) == [ms[0]] + rest;
        assert ([ms[0]] + rest)[1..] == rest;
      } else {
        assert WithScore(ms, v) == rest;
      }
    } else {
      assert WithScore(ms, v) == [ms[0]] + WithScore(ms[1..], v);
    }
  }

  /** In a list sorted by descending score, no legal move outscores the
      first legal one. */
  lemma FirstLegalIsTop(gk: GateKeeper, s: seq<Move>)
    requires SortedByScore(s) && FirstLegal(gk, s).Some?
    ensures Legal(gk, FirstLegal(gk, s).value)
    ensures forall m' :: m' in s && Legal(gk, m') ==> m'.score <= FirstLegal(gk, s).value.score
  {
    FirstLegalSome(gk, s);
    var m := FirstLegal(gk, s).value;
    var i :| 0 <= i < |s| && s[i] == m && Legal(gk, s[i]) && forall j :: 0 <= j < i ==> !Legal(gk, s[j]);
    forall m' | m' in s && Legal(gk, m')
      ensures m'.score <= m.score
    {
      var j :| 0 <= j < |s| && s[j] == m';
    }
  }

  /** Lists with the same multiset have the same members. */
  lemma SameMembers(a: seq<Move>, b: seq<Move>)
    requires multiset(a) == multiset(b)
    ensures forall m :: m in a <==> m in b
  {
    forall m
      ensures m in a <==> m in b
    {
      assert m in a <==> m in multiset(a);
      assert m in b <==> m in multiset(b);
    }
  }

  /** `send` exchanges every tile exactly when no candidate is legal;
      otherwise it plays a legal candidate that no legal candidate outscores,
      the first such in the order the candidates were found. */
  lemma SendPicksBest(gk: GateKeeper, ms: seq<Move>)
    ensures SendOutcome(gk, ms).ExchangeTiles? <==> forall m :: m in ms ==> !Legal(gk, m)
    ensures SendOutcome(gk, ms).ExchangeTiles? ==> SendOutcome(gk, ms).tiles == ALL_TILES
    ensures SendOutcome(gk, ms).PlayWord? ==>
              exists m :: m in ms && Legal(gk, m) &&
                          SendOutcome(gk, ms) == PlayWord(m.word, m.location, m.direction) &&
                          FirstLegal(gk, WithScore(ms, m.score)) == Some(m) &&
                          forall m' :: m' in ms && Legal(gk, m') ==> m'.score <= m.score
  {
    var s := SortByScore(ms);
    SortByScorePermutes(ms);
    SameMembers(ms, s);
    FirstLegalNone(gk, s);
    if FirstLegal(gk, s).Some? {
      var m := FirstLegal(gk, s).value;
      SortByScoreSorted(ms);
      FirstLegalIsTop(gk, s);
      FirstLegalWithScore(gk, s, m);
      SortByScoreStable(ms, m.score);
      assert m in s by {
        FirstLegalSome(gk, s);
      }
    } else {
      assert forall m :: m in s ==> !Legal(gk, m);
    }
  }

  // ---------------------------------------------------------------------------
  // The anchor scan

  /** An anchor square: the free square above (vertical) or to the left of
      (horizontal) a tile that is off row 0 and column 0. */
  predicate IsAnchor(g: Grid, a: Anchor) {
    var t := Neighbor(a.location, a.direction);
    WellFormed(g) && 1 <= t.row < WIDTH && 1 <= t.col < WIDTH &&
    IsLower(At(g, t)) && !IsLower(At(g, a.location))
  }

  /** The tile an anchor belongs to. */
  function TileOf(a: Anchor): Location {
    Neighbor(a.location, a.direction)
  }

  lemma VisitSquareAnchors(g: Grid, st: Stacks, row: int, col: int, a: Anchor)
    requires WellFormed(g) && 1 <= row < WIDTH && 1 <= col < WIDTH
    ensures a in VisitSquare(g, st, row, col).anchors <==>
            a in st.anchors || (IsAnchor(g, a) && TileOf(a) == Location(row, col))
  {
  }

  lemma {:induction false} AnchorRowAnchors(g: Grid, st: Stacks, row: int, n: nat, a: Anchor)
    requires WellFormed(g) && 1 <= row < WIDTH && n <= WIDTH
    ensures a in AnchorRow(g, st, row, n).anchors <==>
            a in st.anchors || (IsAnchor(g, a) && TileOf(a).row == row && TileOf(a).col < n)
  {
    if n > 1 {
      AnchorRowAnchors(g, st, row, n - 1, a);
      VisitSquareAnchors(g, AnchorRow(g, st, row, n - 1), row, n - 1, a);
    }
  }

  lemma {:induction false} AnchorRowsAnchors(g: Grid, st: Stacks, n: nat, a: Anchor)
    requires WellFormed(g) && n <= WIDTH
    ensures a in AnchorRows(g, st, n).anchors <==> a in st.anchors || (IsAnchor(g, a) && TileOf(a).row < n)
  {
    if n > 1 {
      AnchorRowsAnchors(g, st, n - 1, a);
      AnchorRowAnchors(g, AnchorRows(g, st, n - 1), n - 1, WIDTH, a);
    }
  }

  /** The scan finds exactly the anchor squares. */
  lemma ScanAnchorsAre(g: Grid, a: Anchor)
    requires WellFormed(g)
    ensures a in ScanAnchors(g).anchors <==> IsAnchor(g, a)
  {
    AnchorRowsAnchors(g, NO_STACKS, WIDTH, a);
  }

  predicate NoDup(s: seq<int>) {
    forall i, j :: 0 <= i < j < |s| ==> s[i] != s[j]
  }

  predicate HasRow(anchors: seq<Anchor>, x: int) {
    exists a :: a in anchors && a.direction == Horizontal && a.location.row == x
  }

  predicate HasCol(anchors: seq<Anchor>, x: int) {
    exists a :: a in anchors && a.direction == Vertical && a.location.col == x
  }

  /** The row and column stacks hold each row (column) of a horizontal
      (vertical) anchor once, and nothing else. */
  ghost predicate Consistent(st: Stacks) {
    NoDup(st.rows) && NoDup(st.cols) &&
    (forall x :: x in st.rows <==> HasRow(st.anchors, x)) &&
    (forall x :: x in st.cols <==> HasCol(st.anchors, x))
  }

  lemma PushNewNoDup(s: seq<int>, x: int)
    requires NoDup(s)
    ensures NoDup(PushNew(s, x)) && forall y :: y in PushNew(s, x) <==> y in s || y == x
  {
  }

  /** Pushing a vertical anchor and, if new, its column. */
  lemma PushVertical(st: Stacks, a: Anchor)
    requires Consistent(st) && a.direction == Vertical
    ensures Consistent(st.(cols := PushNew(st.cols, a.location.col), anchors := st.anchors + [a]))
  {
    var st1 := st.(cols := PushNew(st.cols, a.location.col), anchors := st.anchors + [a]);
    PushNewNoDup(st.cols, a.location.col);
    forall x
      ensures x in st1.rows <==> HasRow(st1.anchors, x)
      ensures x in st1.cols <==> HasCol(st1.anchors, x)
    {
      if HasRow(st1.anchors, x) {
        var b :| b in st1.anchors && b.direction == Horizontal && b.location.row == x;
        assert b in st.anchors;
      }
      if HasRow(st.anchors, x) {
        var b :| b in st.anchors && b.direction == Horizontal && b.location.row == x;
        assert b in st1.anchors;
      }
      if HasCol(st.anchors, x) {
        var b :| b in st.anchors && b.direction == Vertical && b.location.col == x;
        assert b in st1.anchors;
      }
      assert a in st1.anchors;
    }
  }

  /** Pushing a horizontal anchor and, if new, its row. */
  lemma PushHorizontal(st: Stacks, a: Anchor)
    requires Consistent(st) && a.direction == Horizontal
    ensures Consistent(st.(rows := PushNew(st.rows, a.location.row), anchors := st.anchors + [a]))
  {
    var st1 := st.(rows := PushNew(st.rows, a.location.row), anchors := st.anchors + [a]);
    PushNewNoDup(st.rows, a.location.row);
    forall x
      ensures x in st1.rows <==> HasRow(st1.anchors, x)
      ensures x in st1.cols <==> HasCol(st1.anchors, x)
    {
      if HasCol(st1.anchors, x) {
        var b :| b in st1.anchors && b.direction == Vertical && b.location.col == x;
        assert b in st.anchors;
      }
      if HasCol(st.anchors, x) {
        var b :| b in st.anchors && b.direction == Vertical && b.location.col == x;
        assert b in st1.anchors;
      }
      if HasRow(st.anchors, x) {
        var b :| b in st.anchors && b.direction == Horizontal && b.location.row == x;
        assert b in st1.anchors;
      }
      assert a in st1.anchors;
    }
  }

  lemma VisitSquareConsistent(g: Grid, st: Stacks, row: int, col: int)
    requires Consistent(st)
    ensures Consistent(VisitSquare(g, st, row, col))
  {
    if WellFormed(g) && 1 <= row < WIDTH && 1 <= col < WIDTH {
      var t := Location(row, col);
      var above := Antineighbor(t, Vertical);
      var left := Antineighbor(t, Horizontal);
      PushVertical(st, Anchor(above, Vertical));
      var st1 := if IsLower(At(g, above)) then st
                 else st.(cols := PushNew(st.cols, col), anchors := st.anchors + [Anchor(above, Vertical)]);
      PushHorizontal(st1, Anchor(left, Horizontal));
    }
  }

  lemma {:induction false} AnchorRowConsistent(g: Grid, st: Stacks, row: int, n: nat)
    requires Consistent(st)
    ensures Consistent(AnchorRow(g, st, row, n))
  {
    if n > 1 {
      AnchorRowConsistent(g, st, row, n - 1);
      VisitSquareConsistent(g, AnchorRow(g, st, row, n - 1), row, n - 1);
    }
  }

  lemma {:induction false} AnchorRowsConsistent(g: Grid, st: Stacks, n: nat)
    requires Consistent(st)
    ensures Consistent(AnchorRows(g, st, n))
  {
    if n > 1 {
      AnchorRowsConsistent(g, st, n - 1);
      AnchorRowConsistent(g, AnchorRows(g, st, n - 1), n - 1, WIDTH);
    }
  }

  /** After the scan, `rows` holds the rows of the horizontal anchors and
      `cols` the columns of the vertical ones, each once. */
  lemma ScanAnchorsStacks(g: Grid)
    ensures Consistent(ScanAnchors(g))
  {
    AnchorRowsConsistent(g, NO_STACKS, WIDTH);
  }

  // ---------------------------------------------------------------------------
  // What `findWords` records

  /** A walk from the root to a terminal edge spells a word of the list. */
  lemma EndsIsWord(edges: seq<Edge>, words: seq<string>, letters: string)
    requires Holds(edges, words) && Ends(edges, ROOT, letters)
    ensures letters in words
  {
    var t: nat :| t < |edges| && edges[t].isTerminal && Leads(edges, ROOT, letters, t);
    LeadsFromRootIsWord(edges, words, letters, t);
  }

  /** Where a candidate from the start square `s` is placed: at `s` when
      it holds a tile, otherwise one square on, where `findWords` starts
      `buildWord` when the square is free. */
  function Origin(g: Grid, s: Location, d: Axis): Location {
    if WellFormed(g) && OnBoard(s) && IsLower(At(g, s)) then s else Neighbor(s, d)
  }

  /** A candidate recorded from the start square `s`: placed at `Origin(s)`
      along `d` with the board's score; its letters are spaces (board tiles),
      hand letters, or in first place the tile it starts on; it contains a
      space unless it starts at the centre; it ends before the last square;
      and, read from its own square with the board tiles under its spaces,
      it is a word of the dictionary. */
  predicate Candidate(gk: GateKeeper, hand: seq<char>, words: seq<string>, s: Location, d: Axis, m: Move)
    requires ValidGateKeeper(gk)
  {
    m.location == Origin(gk.board, s, d) && OnBoard(m.location) && m.direction == d &&
    m.score == gk.score(m.word, m.location, d) && m.play.None? &&
    (' ' in m.word || m.location == CENTER) &&
    1 <= |m.word| && Coord(m.location, d) + |m.word| < WIDTH &&
    (forall k :: 0 <= k < |m.word| ==>
       m.word[k] == ' ' || m.word[k] in hand || (k == 0 && m.word[k] == Square(gk, m.location))) &&
    Spelled(gk.board, m.word, m.location, d) in words
  }

  /** The candidates from a start square holding a tile. */
  lemma TileStartAre(gk: GateKeeper, edges: seq<Edge>, words: seq<string>, hand: seq<char>, s: Location, d: Axis, e: nat)
    requires ValidGateKeeper(gk) && Holds(edges, words) && ' ' !in hand && OnBoard(s)
    requires IsLower(Square(gk, s)) && FirstOut(edges, RootOut(edges), Square(gk, s)) == Some(e)
    ensures forall m :: m in BuildMoves(gk, edges, hand, [Square(gk, s)], e, s, s, d) ==>
              Candidate(gk, hand, words, s, d, m)
  {
    var c := Square(gk, s);
    BuildMovesShape(gk, edges, hand, [c], e, s, s, d);
    BuildMovesSpell(gk, edges, hand, [c], e, s, s, d);
    forall m | m in BuildMoves(gk, edges, hand, [c], e, s, s, d)
      ensures Candidate(gk, hand, words, s, d, m)
    {
      TileStartMove(gk, edges, words, hand, s, d, e, m);
    }
  }

  /** One candidate from a start square holding a tile: it begins with
      that tile and spells a dictionary word from the square. */
  lemma TileStartMove(gk: GateKeeper, edges: seq<Edge>, words: seq<string>, hand: seq<char>, s: Location, d: Axis, e: nat, m: Move)
    requires ValidGateKeeper(gk) && Holds(edges, words) && OnBoard(s)
    requires IsLower(Square(gk, s)) && FirstOut(edges, RootOut(edges), Square(gk, s)) == Some(e)
    requires Recorded(gk, hand, [Square(gk, s)], s, d, m) && Coord(s, d) + |m.word| < WIDTH
    requires Ends(edges, e, Spelled(gk.board, m.word[1..], Neighbor(s, d), d))
    ensures Candidate(gk, hand, words, s, d, m)
  {
    var g := gk.board;
    var c := Square(gk, s);
    assert m.word[0] == c by {
      assert m.word[..1] == [c];
    }
    SpelledFrom(g, m.word, 0, s, d);
    assert m.word[0..] == m.word;
    EndsVia1(edges, RootOut(edges), e, c, Spelled(g, m.word[1..], Neighbor(s, d), d));
    EndsViaOut(edges, ROOT, Spelled(g, m.word, s, d));
    EndsIsWord(edges, words, Spelled(g, m.word, s, d));
  }

  /** The candidates from a free start square. */
  lemma FreeStartAre(gk: GateKeeper, edges: seq<Edge>, words: seq<string>, hand: seq<char>, s: Location, d: Axis)
    requires ValidGateKeeper(gk) && Holds(edges, words) && ' ' !in hand && OnBoard(s)
    requires !IsLower(Square(gk, s))
    ensures forall m :: m in BuildMoves(gk, edges, hand, [], ROOT, Neighbor(s, d), s, d) ==>
              Candidate(gk, hand, words, s, d, m)
  {
    var g := gk.board;
    var ms := BuildMoves(gk, edges, hand, [], ROOT, Neighbor(s, d), s, d);
    BuildMovesShape(gk, edges, hand, [], ROOT, Neighbor(s, d), s, d);
    BuildMovesSpell(gk, edges, hand, [], ROOT, Neighbor(s, d), s, d);
    var sub: string := [];
    forall m | m in ms
      ensures Spelled(g, m.word, Neighbor(s, d), d) in words
    {
      assert m.word[|sub|..] == m.word;
      EndsIsWord(edges, words, Spelled(g, m.word, Neighbor(s, d), d));
    }
  }

  /** Every candidate recorded from one start square. */
  lemma StartMovesAre(gk: GateKeeper, edges: seq<Edge>, words: seq<string>, hand: seq<char>, s: Location, d: Axis)
    requires ValidGateKeeper(gk) && Holds(edges, words) && ' ' !in hand
    ensures StartMoves(gk, edges, hand, s, d).Some? ==>
              forall m :: m in StartMoves(gk, edges, hand, s, d).value ==> Candidate(gk, hand, words, s, d, m)
  {
    if OnBoard(s) {
      var c := Square(gk, s);
      if IsLower(c) {
        var f := FirstOut(edges, RootOut(edges), c);
        if f.Some? {
          TileStartAre(gk, edges, words, hand, s, d, f.value);
        }
      } else {
        FreeStartAre(gk, edges, words, hand, s, d);
      }
    }
  }

  /** Every candidate of the first `n` offsets comes from one of them. */
  lemma {:induction false} FindBeforeAre(gk: GateKeeper, edges: seq<Edge>, words: seq<string>, hand: seq<char>,
                                         l: Location, d: Axis, n: nat)
    requires ValidGateKeeper(gk) && Holds(edges, words) && ' ' !in hand
    ensures FindBefore(gk, edges, hand, l, d, n).Some? ==>
              forall m :: m in FindBefore(gk, edges, hand, l, d, n).value ==>
                exists i :: -1 <= i < n - 1 && Candidate(gk, hand, words, StartAt(l, d, i), d, m)
  {
    if 0 < n <= 8 {
      FindBeforeAre(gk, edges, words, hand, l, d, n - 1);
      StartMovesAre(gk, edges, words, hand, StartAt(l, d, n - 2), d);
    }
  }

  /** `findWords(l, d)` records only candidates from the start squares at
      offsets -1 .. 6 behind `l`. */
  lemma FindMovesAre(gk: GateKeeper, edges: seq<Edge>, words: seq<string>, hand: seq<char>, l: Location, d: Axis)
    requires ValidGateKeeper(gk) && Holds(edges, words) && ' ' !in hand
    ensures FindMoves(gk, edges, hand, l, d).Some? ==>
              forall m :: m in FindMoves(gk, edges, hand, l, d).value ==>
                exists i :: -1 <= i < 7 && Candidate(gk, hand, words, StartAt(l, d, i), d, m)
  {
    FindBeforeAre(gk, edges, words, hand, l, d, 8);
  }

  // ---------------------------------------------------------------------------
  // When `findWords` fails

  /** Some word of the list begins with `c`. */
  predicate Begins(words: seq<string>, c: char) {
    exists j :: 0 <= j < |words| && |words[j]| >= 1 && words[j][0] == c
  }

  /** A start square whose tile begins no word: `getEdge` gives null there. */
  predicate DeadStart(gk: GateKeeper, words: seq<string>, s: Location)
    requires ValidGateKeeper(gk)
  {
    OnBoard(s) && IsLower(Square(gk, s)) && !Begins(words, Square(gk, s))
  }

  /** The root has an out-edge carrying `c` exactly when a word begins
      with `c`. */
  lemma RootEdgeFor(edges: seq<Edge>, words: seq<string>, c: char)
    requires Holds(edges, words)
    ensures FirstOut(edges, RootOut(edges), c).None? <==> !Begins(words, c)
  {
    var out := edges[ROOT].out;
    FirstOutNone(edges, out, c);
    forall k | 0 <= k < |out|
      ensures edges[out[k]].letter == words[k][0] && |words[k]| >= 1
    {
      ChainEdge(edges, out[k], words[k], 0);
    }
  }

  /** `buildWord` fails from a start square exactly when it is dead. */
  lemma StartMovesFail(gk: GateKeeper, edges: seq<Edge>, words: seq<string>, hand: seq<char>, s: Location, d: Axis)
    requires ValidGateKeeper(gk) && Holds(edges, words)
    ensures StartMoves(gk, edges, hand, s, d).None? <==> DeadStart(gk, words, s)
  {
    if OnBoard(s) && IsLower(Square(gk, s)) {
      RootEdgeFor(edges, words, Square(gk, s));
    }
  }

  lemma {:induction false} FindBeforeFail(gk: GateKeeper, edges: seq<Edge>, words: seq<string>, hand: seq<char>,
                                          l: Location, d: Axis, n: nat)
    requires ValidGateKeeper(gk) && Holds(edges, words) && n <= 8
    ensures FindBefore(gk, edges, hand, l, d, n).None? <==>
              exists i :: -1 <= i < n - 1 && DeadStart(gk, words, StartAt(l, d, i))
  {
    if n > 0 {
      FindBeforeFail(gk, edges, words, hand, l, d, n - 1);
      StartMovesFail(gk, edges, words, hand, StartAt(l, d, n - 2), d);
    }
  }

  /** `findWords(l, d)` fails exactly when one of its start squares is dead. */
  lemma FindMovesFail(gk: GateKeeper, edges: seq<Edge>, words: seq<string>, hand: seq<char>, l: Location, d: Axis)
    requires ValidGateKeeper(gk) && Holds(edges, words)
    ensures FindMoves(gk, edges, hand, l, d).None? <==>
              exists i :: -1 <= i < 7 && DeadStart(gk, words, StartAt(l, d, i))
  {
    FindBeforeFail(gk, edges, words, hand, l, d, 8);
  }

  // ---------------------------------------------------------------------------
  // A turn

  /** Every candidate of the anchors comes from a start square of one of them. */
  lemma {:induction false} AnchorMovesAre(gk: GateKeeper, edges: seq<Edge>, words: seq<string>, hand: seq<char>,
                                          anchors: seq<Anchor>)
    requires ValidGateKeeper(gk) && Holds(edges, words) && ' ' !in hand
    ensures AnchorMoves(gk, edges, hand, anchors).Some? ==>
              forall m :: m in AnchorMoves(gk, edges, hand, anchors).value ==>
                exists a, i :: a in anchors && -1 <= i < 7 &&
                               Candidate(gk, hand, words, StartAt(a.location, a.direction, i), a.direction, m)
  {
    if anchors != [] {
      var init := anchors[..|anchors| - 1];
      var a := anchors[|anchors| - 1];
      AnchorMovesAre(gk, edges, words, hand, init);
      FindMovesAre(gk, edges, words, hand, a.location, a.direction);
      assert forall b :: b in init ==> b in anchors;
    }
  }

  /** The search of the anchors fails exactly when one of their start
      squares is dead. */
  lemma {:induction false} AnchorMovesFailIff(gk: GateKeeper, edges: seq<Edge>, words: seq<string>, hand: seq<char>,
                                              anchors: seq<Anchor>)
    requires ValidGateKeeper(gk) && Holds(edges, words)
    ensures AnchorMoves(gk, edges, hand, anchors).None? <==>
              exists a, i :: a in anchors && -1 <= i < 7 && DeadStart(gk, words, StartAt(a.location, a.direction, i))
  {
    if anchors != [] {
      var init := anchors[..|anchors| - 1];
      var a := anchors[|anchors| - 1];
      AnchorMovesFailIff(gk, edges, words, hand, init);
      FindMovesFail(gk, edges, words, hand, a.location, a.direction);
      assert anchors == init + [a];
      assert forall b :: b in anchors <==> b in init || b == a;
    }
  }

  /** `betterFirstMove` searches like `betterMove` would at two anchors on
      the centre: down, then across. */
  lemma FirstMovesAsAnchors(gk: GateKeeper, edges: seq<Edge>, hand: seq<char>)
    requires ValidGateKeeper(gk)
    ensures FirstMoves(gk, edges, hand) ==
            AnchorMoves(gk, edges, hand, [Anchor(CENTER, Vertical), Anchor(CENTER, Horizontal)])
  {
    var both := [Anchor(CENTER, Vertical), Anchor(CENTER, Horizontal)];
    assert both[..1] == [Anchor(CENTER, Vertical)];
    assert both[..1][..0] == [];
    var down := FindMoves(gk, edges, hand, CENTER, Vertical);
    assert AnchorMoves(gk, edges, hand, both[..1][..0]) == Some([]);
    if down.Some? {
      assert [] + down.value == down.value;
    }
    assert AnchorMoves(gk, edges, hand, both[..1]) == down;
  }

  /** The anchors a turn searches: the centre on the first turn, the anchor
      squares of the board after. */
  function Searches(gk: GateKeeper): seq<Anchor>
    requires ValidGateKeeper(gk)
  {
    if FirstTurn(gk) then [Anchor(CENTER, Vertical), Anchor(CENTER, Horizontal)]
    else ScanAnchors(gk.board).anchors
  }

  lemma TurnMovesSearch(gk: GateKeeper, words: seq<string>)
    requires ValidGateKeeper(gk)
    ensures TurnMoves(gk, words) == AnchorMoves(gk, GraphOf(words), gk.hand, Searches(gk))
    ensures forall a :: a in Searches(gk) <==> if FirstTurn(gk) then a.location == CENTER else IsAnchor(gk.board, a)
  {
    FirstMovesAsAnchors(gk, GraphOf(words), gk.hand);
    forall a
      ensures a in Searches(gk) <==> if FirstTurn(gk) then a.location == CENTER else IsAnchor(gk.board, a)
    {
      ScanAnchorsAre(gk.board, a);
    }
  }

  /** The result of `chooseMove` with the dictionary of `words`. It fails
      (a null edge) exactly when a start square of a searched anchor holds
      a letter no word begins with. It exchanges every tile exactly when
      none of the candidates is legal. Otherwise it plays a legal candidate
      of the highest legal score: the word, read from its square with the
      board tiles under its spaces, is in the dictionary, and its other
      letters come from the hand. */
  lemma TurnOutcome(gk: GateKeeper, words: seq<string>)
    requires ValidGateKeeper(gk) && ' ' !in gk.hand
    requires forall i :: 0 <= i < |words| ==> |words[i]| >= 1
    ensures Turn(gk, words).None? <==>
              exists a, i :: a in Searches(gk) && -1 <= i < 7 && DeadStart(gk, words, StartAt(a.location, a.direction, i))
    ensures Turn(gk, words).Some? && Turn(gk, words).value.ExchangeTiles? <==>
              TurnMoves(gk, words).Some? && forall m :: m in TurnMoves(gk, words).value ==> !Legal(gk, m)
    ensures Turn(gk, words).Some? && Turn(gk, words).value.PlayWord? ==>
              exists m, a, i :: m in TurnMoves(gk, words).value && Legal(gk, m) &&
                                Turn(gk, words).value == PlayWord(m.word, m.location, m.direction) &&
                                a in Searches(gk) && -1 <= i < 7 &&
                                Candidate(gk, gk.hand, words, StartAt(a.location, a.direction, i), a.direction, m) &&
                                forall m' :: m' in TurnMoves(gk, words).value && Legal(gk, m') ==> m'.score <= m.score
  {
    var edges := GraphOf(words);
    GraphOfHolds(words);
    TurnMovesSearch(gk, words);
    AnchorMovesFailIff(gk, edges, words, gk.hand, Searches(gk));
    var found := TurnMoves(gk, words);
    if found.Some? {
      SendPicksBest(gk, found.value);
      AnchorMovesAre(gk, edges, words, gk.hand, Searches(gk));
    }
  }
}
