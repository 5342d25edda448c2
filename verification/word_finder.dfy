/** The newer word finder: the strings the trie allows to be spelt with some of
    the tiles of a hand, where a blank may stand for any letter from 'a' to
    'y' and is written as the capital of that letter. A search may be tied to
    an anchor letter: nothing is reported at a node until a tile equal to the
    anchor (not a blank) has been laid on the way there. The letters laid so
    far are kept in the shared buffer `wordVal`, written at index `depth` and
    cleared when the call at that depth returns. */
module WordFinder {
  import opened Common
  import opened WordTrie
  import opened HandParsing

  /** The child slots a blank is tried as: 'a' up to, not including, 'z'. */
  const WILD_SLOTS: set<int> := set k | 0 <= k < 25

  /** The character a cleared buffer square holds. */
  const NUL: char := 0 as char

  // ---------------------------------------------------------------------------
  // The search, as functions

  /** The strings `getAllWords(hand, anchor, output, depth, passed, wordVal)`
      adds at node `n`, `path` being `wordVal[0..depth]`: the path itself when
      the node holds a word and the anchor has been passed, then what the
      tiles of the hand add. */
  function Found(nodes: seq<WordNode>, n: nat, hand: seq<char>, anchor: char, passed: bool, path: string): (r: seq<string>)
    requires Linked(nodes) && n < |nodes| && |hand| >= 1 && HandTiles(hand)
    decreases |hand|, 2
  {
    (if nodes[n].word.Some? && passed then [path] else [])
    + if |hand| > 1 then Scan(nodes, n, hand, anchor, passed, path, |hand|)
      else LastTile(nodes, n, hand[0], anchor, passed, path)
  }

  /** The child slots the tiles `hand[..i]` mark as seen: its own slot for a
      letter tile, 'a' to 'y' for a blank. */
  function Tried(hand: seq<char>, i: nat): (r: set<int>)
    requires HandTiles(hand) && i <= |hand|
  {
    if i == 0 then {}
    else Tried(hand, i - 1) + if hand[i - 1] == BLANK then WILD_SLOTS else {Slot(hand[i - 1])}
  }

  /** What the loop over the tiles adds while trying the first `i` tiles. */
  function Scan(nodes: seq<WordNode>, n: nat, hand: seq<char>, anchor: char, passed: bool, path: string, i: nat): (r: seq<string>)
    requires Linked(nodes) && n < |nodes| && |hand| >= 2 && HandTiles(hand) && i <= |hand|
    decreases |hand|, 1, i
  {
    if i == 0 then []
    else Scan(nodes, n, hand, anchor, passed, path, i - 1) + Lay(nodes, n, hand, anchor, passed, path, i - 1)
  }

  /** What trying tile `hand[i]` adds, given the slots seen before it. */
  function Lay(nodes: seq<WordNode>, n: nat, hand: seq<char>, anchor: char, passed: bool, path: string, i: nat): (r: seq<string>)
    requires Linked(nodes) && n < |nodes| && |hand| >= 2 && HandTiles(hand) && i < |hand|
    decreases |hand|, 0, 27
  {
    if hand[i] == BLANK then Wild(nodes, n, hand, i, anchor, passed, path, 25, Tried(hand, i))
    else Tile(nodes, n, hand, i, anchor, passed, path, Tried(hand, i))
  }

  /** Laying the letter tile `hand[i]`: it passes the anchor when it is the
      anchor. */
  function Tile(nodes: seq<WordNode>, n: nat, hand: seq<char>, i: nat, anchor: char, passed: bool, path: string,
                seen: set<int>): (r: seq<string>)
    requires Linked(nodes) && n < |nodes| && |hand| >= 2 && HandTiles(hand) && i < |hand| && hand[i] != BLANK
    decreases |hand|, 0, 0
  {
    if Slot(hand[i]) in seen then []
    else match nodes[n].children[Slot(hand[i])]
      case None => []
      case Some(child) => Found(nodes, child, RemoveAt(hand, i), anchor, passed || hand[i] == anchor, path + [hand[i]])
  }

  /** Laying the blank `hand[i]` as each of the first `k` letters not seen
      before; a blank never passes the anchor. */
  function Wild(nodes: seq<WordNode>, n: nat, hand: seq<char>, i: nat, anchor: char, passed: bool, path: string,
                k: int, seen: set<int>): (r: seq<string>)
    requires Linked(nodes) && n < |nodes| && |hand| >= 2 && HandTiles(hand) && i < |hand| && 0 <= k <= 25
    decreases |hand|, 0, k + 1
  {
    if k == 0 then []
    else Wild(nodes, n, hand, i, anchor, passed, path, k - 1, seen) + BlankAs(nodes, n, hand, i, anchor, passed, path, k - 1, seen)
  }

  /** Laying the blank `hand[i]` as the letter of slot `k`, written as a
      capital, unless that slot was seen. */
  function BlankAs(nodes: seq<WordNode>, n: nat, hand: seq<char>, i: nat, anchor: char, passed: bool, path: string,
                   k: int, seen: set<int>): (r: seq<string>)
    requires Linked(nodes) && n < |nodes| && |hand| >= 2 && HandTiles(hand) && i < |hand| && 0 <= k < 25
    decreases |hand|, 0, 0
  {
    if k in seen then []
    else match nodes[n].children[k]
      case None => []
      case Some(child) => Found(nodes, child, RemoveAt(hand, i), anchor, passed, path + [ToUpper(Letter(k))])
  }

  /** The last tile: the path (without the tile's letter) is reported when the
      tile's child holds a word and the anchor is passed; a last blank reports
      the path once for every letter 'a'..'y' whose child holds a word, and
      only when the anchor was passed before it. */
  function LastTile(nodes: seq<WordNode>, n: nat, t: char, anchor: char, passed: bool, path: string): (r: seq<string>)
    requires Linked(nodes) && n < |nodes| && (IsLower(t) || t == BLANK)
  {
    if t == BLANK then (if passed then LastWild(nodes, n, path, 25) else [])
    else match nodes[n].children[Slot(t)]
      case None => []
      case Some(child) => if (passed || t == anchor) && nodes[child].word.Some? then [path] else []
  }

  /** The last blank tried as each of the first `k` letters. */
  function LastWild(nodes: seq<WordNode>, n: nat, path: string, k: int): (r: seq<string>)
    requires Linked(nodes) && n < |nodes| && 0 <= k <= 25
  {
    if k == 0 then []
    else
      LastWild(nodes, n, path, k - 1)
      + match nodes[n].children[k - 1]
        case None => []
        case Some(child) => if nodes[child].word.Some? then [path] else []
  }

  // ---------------------------------------------------------------------------
  // Properties of the search

  /** The tile a character of a reported string uses: a capital was laid
      with a blank. */
  function TileOf(c: char): char {
    if IsUpper(c) then BLANK else c
  }

  function Tiles(s: string): (r: seq<char>)
    ensures |r| == |s|
  {
    if s == [] then [] else [TileOf(s[0])] + Tiles(s[1..])
  }

  /** `s` can be laid with tiles of `hand`: blanks for its capitals, and no
      blank played as a 'Z'. */
  predicate Spelt(s: string, hand: seq<char>) {
    && multiset(Tiles(s)) <= multiset(hand)
    && forall j :: 0 <= j < |s| ==> IsLower(s[j]) || 'A' <= s[j] <= 'Y'
  }

  /** `w` is `path` followed by fewer letters than the hand has tiles, laid
      with tiles of the hand. */
  predicate Continues(w: string, path: string, hand: seq<char>) {
    |path| <= |w| < |path| + |hand| && w[..|path|] == path && Spelt(w[|path|..], hand)
  }

  /** A string continuing `path + [c]` with the hand short of tile `i`
      continues `path` with the whole hand when `c` is laid with tile `i`. */
  lemma ContinuesStep(w: string, path: string, c: char, hand: seq<char>, i: nat)
    requires i < |hand| && Continues(w, path + [c], RemoveAt(hand, i))
    requires TileOf(c) == hand[i] && (IsLower(c) || 'A' <= c <= 'Y')
    ensures Continues(w, path, hand)
  {
    var L := |path|;
    assert w[..L] == w[..L + 1][..L];
    assert w[L..] == [c] + w[L + 1..];
    SpeltCons(c, w[L + 1..], hand, i);
  }

  /** Laying `c` with tile `i` in front of a string spelt with the other
      tiles gives a string spelt with the whole hand. */
  lemma SpeltCons(c: char, rest: string, hand: seq<char>, i: nat)
    requires i < |hand| && Spelt(rest, RemoveAt(hand, i))
    requires TileOf(c) == hand[i] && (IsLower(c) || 'A' <= c <= 'Y')
    ensures Spelt([c] + rest, hand)
  {
    var s := [c] + rest;
    assert s[1..] == rest;
    assert multiset(Tiles(s)) <= multiset(hand) by {
      assert Tiles(s) == [hand[i]] + Tiles(rest);
      RemoveAtTiles(hand, i);
    }
    forall j | 0 <= j < |s|
      ensures IsLower(s[j]) || 'A' <= s[j] <= 'Y'
    {
      if j > 0 {
        assert s[j] == rest[j - 1];
      }
    }
  }

  /** None of the hand's letter tiles is the anchor. */
  predicate AnchorAbsent(hand: seq<char>, anchor: char) {
    forall j :: 0 <= j < |hand| ==> hand[j] == BLANK || hand[j] != anchor
  }

  /** Every string reported below node `n` continues `path` with tiles of the
      hand; and until the anchor is passed, a hand without the anchor among
      its letter tiles reports nothing. */
  lemma {:induction false} FoundProperties(nodes: seq<WordNode>, n: nat, hand: seq<char>, anchor: char, passed: bool, path: string)
    requires Linked(nodes) && n < |nodes| && |hand| >= 1 && HandTiles(hand)
    ensures forall w :: w in Found(nodes, n, hand, anchor, passed, path) ==> Continues(w, path, hand)
    ensures !passed && AnchorAbsent(hand, anchor) ==> Found(nodes, n, hand, anchor, passed, path) == []
    decreases |hand|, 2
  {
    assert Continues(path, path, hand) by {
      assert path[|path|..] == [];
    }
    if |hand| > 1 {
      ScanProperties(nodes, n, hand, anchor, passed, path, |hand|);
    } else if hand[0] == BLANK && passed {
      LastWildReportsPath(nodes, n, path, 25);
    }
  }

  lemma {:induction false} ScanProperties(nodes: seq<WordNode>, n: nat, hand: seq<char>, anchor: char, passed: bool, path: string, i: nat)
    requires Linked(nodes) && n < |nodes| && |hand| >= 2 && HandTiles(hand) && i <= |hand|
    ensures forall w :: w in Scan(nodes, n, hand, anchor, passed, path, i) ==> Continues(w, path, hand)
    ensures !passed && AnchorAbsent(hand, anchor) ==> Scan(nodes, n, hand, anchor, passed, path, i) == []
    decreases |hand|, 1, i
  {
    if i > 0 {
      ScanProperties(nodes, n, hand, anchor, passed, path, i - 1);
      if hand[i - 1] == BLANK {
        WildProperties(nodes, n, hand, i - 1, anchor, passed, path, 25, Tried(hand, i - 1));
      } else {
        TileProperties(nodes, n, hand, i - 1, anchor, passed, path, Tried(hand, i - 1));
      }
    }
  }

  lemma {:induction false} TileProperties(nodes: seq<WordNode>, n: nat, hand: seq<char>, i: nat, anchor: char, passed: bool, path: string,
                                          seen: set<int>)
    requires Linked(nodes) && n < |nodes| && |hand| >= 2 && HandTiles(hand) && i < |hand| && hand[i] != BLANK
    ensures forall w :: w in Tile(nodes, n, hand, i, anchor, passed, path, seen) ==> Continues(w, path, hand)
    ensures !passed && AnchorAbsent(hand, anchor) ==> Tile(nodes, n, hand, i, anchor, passed, path, seen) == []
    decreases |hand|, 0, 0
  {
    var c := hand[i];
    if Slot(c) !in seen && nodes[n].children[Slot(c)].Some? {
      var child := nodes[n].children[Slot(c)].value;
      var rest := RemoveAt(hand, i);
      FoundProperties(nodes, child, rest, anchor, passed || c == anchor, path + [c]);
      forall w | w in Found(nodes, child, rest, anchor, passed || c == anchor, path + [c])
        ensures Continues(w, path, hand)
      {
        ContinuesStep(w, path, c, hand, i);
      }
      if AnchorAbsent(hand, anchor) {
        assert AnchorAbsent(rest, anchor);
      }
    }
  }

  lemma {:induction false} WildProperties(nodes: seq<WordNode>, n: nat, hand: seq<char>, i: nat, anchor: char, passed: bool, path: string,
                                          k: int, seen: set<int>)
    requires Linked(nodes) && n < |nodes| && |hand| >= 2 && HandTiles(hand) && i < |hand| && hand[i] == BLANK && 0 <= k <= 25
    ensures forall w :: w in Wild(nodes, n, hand, i, anchor, passed, path, k, seen) ==> Continues(w, path, hand)
    ensures !passed && AnchorAbsent(hand, anchor) ==> Wild(nodes, n, hand, i, anchor, passed, path, k, seen) == []
    decreases |hand|, 0, k + 1
  {
    if k > 0 {
      WildProperties(nodes, n, hand, i, anchor, passed, path, k - 1, seen);
      BlankAsProperties(nodes, n, hand, i, anchor, passed, path, k - 1, seen);
    }
  }

  lemma {:induction false} BlankAsProperties(nodes: seq<WordNode>, n: nat, hand: seq<char>, i: nat, anchor: char, passed: bool, path: string,
                                             k: int, seen: set<int>)
    requires Linked(nodes) && n < |nodes| && |hand| >= 2 && HandTiles(hand) && i < |hand| && hand[i] == BLANK && 0 <= k < 25
    ensures forall w :: w in BlankAs(nodes, n, hand, i, anchor, passed, path, k, seen) ==> Continues(w, path, hand)
    ensures !passed && AnchorAbsent(hand, anchor) ==> BlankAs(nodes, n, hand, i, anchor, passed, path, k, seen) == []
    decreases |hand|, 0, 0
  {
    if k !in seen && nodes[n].children[k].Some? {
      var child := nodes[n].children[k].value;
      var rest := RemoveAt(hand, i);
      var c := ToUpper(Letter(k));
      FoundProperties(nodes, child, rest, anchor, passed, path + [c]);
      forall w | w in Found(nodes, child, rest, anchor, passed, path + [c])
        ensures Continues(w, path, hand)
      {
        ContinuesStep(w, path, c, hand, i);
      }
      if AnchorAbsent(hand, anchor) {
        assert AnchorAbsent(rest, anchor);
      }
    }
  }

  /** A last blank reports nothing but the path. */
  lemma {:induction false} LastWildReportsPath(nodes: seq<WordNode>, n: nat, path: string, k: int)
    requires Linked(nodes) && n < |nodes| && 0 <= k <= 25
    ensures forall w :: w in LastWild(nodes, n, path, k) ==> w == path
  {
    if k > 0 {
      LastWildReportsPath(nodes, n, path, k - 1);
    }
  }

  /** What both entry points report from the root for a hand: each string is
      shorter than the hand and is laid with tiles of it, blanks as capitals
      'A'..'Y'; with an anchor (`passed` false) nothing is reported unless a
      letter tile of the hand is the anchor. */
  lemma ReportedFromHand(nodes: seq<WordNode>, hand: seq<char>, anchor: char, passed: bool)
    requires Linked(nodes) && HandTiles(hand) && |hand| >= 1
    ensures forall w :: w in Found(nodes, 0, ParsedHand(hand, BLANK), anchor, passed, []) ==> |w| < |hand| && Spelt(w, hand)
    ensures !passed && AnchorAbsent(hand, anchor) ==> Found(nodes, 0, ParsedHand(hand, BLANK), anchor, passed, []) == []
  {
    var parsed := ParsedHand(hand, BLANK);
    ParsedHandRearranges(hand);
    FoundProperties(nodes, 0, parsed, anchor, passed, []);
    forall w | w in Found(nodes, 0, parsed, anchor, passed, [])
      ensures |w| < |hand| && Spelt(w, hand)
    {
      assert w[0..] == w;
    }
    if AnchorAbsent(hand, anchor) {
      forall j | 0 <= j < |parsed|
        ensures parsed[j] == BLANK || parsed[j] != anchor
      {
        assert parsed[j] in multiset(hand);
      }
    }
  }

  /** The trie holding "at": the root, its child for 'a', and that node's
      child for 't', which holds the word. */
  lemma TrieOfAt()
    ensures var t := Build(["at"]).nodes;
            && |t| == 3 && t[0].word.None? && t[1].word.None? && t[2].word.Some?
            && t[0].children[0] == Some(1) && t[0].children[19].None? && t[1].children[19] == Some(2)
  {
    assert ["at"][..0] == [];
    var a1 := Adopt(EMPTY, 0, 'a');
    assert ChildW(EMPTY, 0, 'a') == Grown(a1, 1);
    var a2 := Adopt(a1, 1, 't');
    assert ChildW(a1, 1, 't') == Grown(a2, 2);
  }

  /** The search of "at" in a trie shaped like the one holding only "at",
      once the last tile passes the anchor. */
  lemma SearchOfAt(t: seq<WordNode>, anchor: char, passed: bool)
    requires Linked(t) && |t| == 3 && t[0].word.None? && t[1].word.None? && t[2].word.Some?
    requires t[0].children[0] == Some(1) && t[0].children[19].None? && t[1].children[19] == Some(2)
    requires passed || anchor == 't'
    ensures Found(t, 0, "at", anchor, passed, []) == ["a"]
  {
    assert RemoveAt("at", 0) == "t" && Tried("at", 1) == {0} && [] + ['a'] == "a";
    assert Lay(t, 0, "at", anchor, passed, [], 0) == Found(t, 1, "t", anchor, passed || 'a' == anchor, "a") == ["a"];
    assert Lay(t, 0, "at", anchor, passed, [], 1) == [];
  }

  /** With one tile left the string reported is the path without that tile's
      letter: with only "at" stored, the hand "at" reports "a". */
  lemma LastTileOmitted()
    ensures Found(Build(["at"]).nodes, 0, "at", BLANK, true, []) == ["a"]
  {
    TrieOfAt();
    SearchOfAt(Build(["at"]).nodes, BLANK, true);
  }

  /** The anchor 't' is passed by the last tile, which the reported string
      leaves out: the anchored search of "at" with only "at" stored reports
      "a". */
  lemma AnchorOmitted()
    ensures Found(Build(["at"]).nodes, 0, "at", 't', false, []) == ["a"]
  {
    TrieOfAt();
    SearchOfAt(Build(["at"]).nodes, 't', false);
  }

  /** The trie holding "ab": the root, its child for 'a', and that node's
      child for 'b', which holds the word. */
  lemma TrieOfAb(words: seq<string>)
    requires words == ["ab"]
    ensures var a := Build(words);
            && |a.nodes| == 3 && a.nodes[0].word.None? && a.nodes[1].word.None? && a.nodes[2].word.Some?
            && a.nodes[0].children == NO_CHILDREN[0 := Some(1)]
            && a.nodes[1].children == NO_CHILDREN[1 := Some(2)]
  {
    assert words[..0] == [];
    var a1 := Adopt(EMPTY, 0, 'a');
    assert ChildW(EMPTY, 0, 'a') == Grown(a1, 1);
    var a2 := Adopt(a1, 1, 'b');
    assert ChildW(a1, 1, 'b') == Grown(a2, 2);
  }

  /** The trie holding "ab" and "ac": the root, its child for 'a', and that
      node's children for 'b' and 'c', which hold the words. */
  lemma TrieOfAbAc(words: seq<string>)
    requires words == ["ab", "ac"]
    ensures var t := Build(words).nodes;
            && |t| == 4 && t[0].word.None? && t[1].word.None? && t[2].word.Some? && t[3].word.Some?
            && t[0].children[0] == Some(1) && (forall k :: 1 <= k < 26 ==> t[0].children[k].None?)
            && t[1].children[0].None? && t[1].children[1] == Some(2) && t[1].children[2] == Some(3)
            && (forall k :: 3 <= k < 26 ==> t[1].children[k].None?)
  {
    assert words[..1] == ["ab"];
    var b1 := Build(["ab"]);
    TrieOfAb(["ab"]);
    assert ChildW(b1, 0, 'a') == Grown(b1, 1);
    var b2 := Adopt(b1, 1, 'c');
    assert ChildW(b1, 1, 'c') == Grown(b2, 3);
    assert Build(words) == Insert(b1, "ac");
  }

  /** Below node 1 of that trie, a last blank finds the words under 'b' and
      'c'. */
  lemma {:induction false} LastWildOfAbAc(t: seq<WordNode>, k: int)
    requires Linked(t) && |t| == 4 && t[2].word.Some? && t[3].word.Some?
    requires t[1].children[0].None? && t[1].children[1] == Some(2) && t[1].children[2] == Some(3)
    requires forall j :: 3 <= j < 26 ==> t[1].children[j].None?
    requires 3 <= k <= 25
    ensures LastWild(t, 1, "a", k) == ["a", "a"]
  {
    if k == 3 {
      assert LastWild(t, 1, "a", 1) == [];
    } else {
      LastWildOfAbAc(t, k - 1);
    }
  }

  /** At the root of that trie a blank laid after 'a' finds no other child. */
  lemma {:induction false} WildOfAbAc(t: seq<WordNode>, k: int)
    requires Linked(t) && (forall j :: 1 <= j < 26 ==> t[0].children[j].None?) && 0 <= k <= 25
    ensures Wild(t, 0, "a_", 1, BLANK, true, [], k, {0}) == []
  {
    if k > 0 {
      WildOfAbAc(t, k - 1);
    }
  }

  /** The search of "a_" in a trie shaped like the one holding "ab" and
      "ac". */
  lemma SearchOfABlank(t: seq<WordNode>)
    requires Linked(t) && |t| == 4 && t[0].word.None? && t[1].word.None? && t[2].word.Some? && t[3].word.Some?
    requires t[0].children[0] == Some(1) && forall k :: 1 <= k < 26 ==> t[0].children[k].None?
    requires t[1].children[0].None? && t[1].children[1] == Some(2) && t[1].children[2] == Some(3)
    requires forall k :: 3 <= k < 26 ==> t[1].children[k].None?
    ensures Found(t, 0, "a_", BLANK, true, []) == ["a", "a"]
  {
    assert Found(t, 1, "_", BLANK, true, "a") == LastWild(t, 1, "a", 25) == ["a", "a"] by {
      LastWildOfAbAc(t, 25);
    }
    assert Lay(t, 0, "a_", BLANK, true, [], 0) == ["a", "a"] by {
      assert RemoveAt("a_", 0) == "_" && [] + ['a'] == "a";
      assert Tile(t, 0, "a_", 0, BLANK, true, [], {}) == Found(t, 1, "_", BLANK, true, "a");
    }
    assert Lay(t, 0, "a_", BLANK, true, [], 1) == [] by {
      assert Tried("a_", 1) == {0};
      WildOfAbAc(t, 25);
    }
    assert Scan(t, 0, "a_", BLANK, true, [], 1) == ["a", "a"];
  }

  /** A last blank reports the path once per letter whose child holds a word:
      with "ab" and "ac" stored, the hand "a_" reports "a" twice. */
  lemma LastBlankRepeats(words: seq<string>)
    requires words == ["ab", "ac"]
    ensures Found(Build(words).nodes, 0, "a_", BLANK, true, []) == ["a", "a"]
  {
    TrieOfAbAc(words);
    SearchOfABlank(Build(words).nodes);
  }

  // ---------------------------------------------------------------------------
  // The buffer

  /** The buffer after a call at `depth` returns: the squares before `depth`
      are as they were, square `depth` is cleared, and every later square is
      as it was or cleared. */
  predicate Restored(after: seq<char>, before: seq<char>, depth: nat) {
    Settled(after, before, depth) && depth < |after| && after[depth] == NUL
  }

  /** As `Restored`, with square `depth` itself free. */
  predicate Settled(after: seq<char>, before: seq<char>, depth: nat) {
    && |after| == |before| && depth <= |after|
    && after[..depth] == before[..depth]
    && forall j :: depth < j < |after| ==> after[j] == before[j] || after[j] == NUL
  }

  lemma SettledAfterCall(a: seq<char>, b: seq<char>, c: seq<char>, depth: nat)
    requires Settled(b, a, depth) && Restored(c, b, depth + 1)
    ensures Settled(c, a, depth)
  {
    assert c[..depth] == c[..depth + 1][..depth];
    assert b[..depth] == b[..depth + 1][..depth];
  }

  // ---------------------------------------------------------------------------
  // The finder

  /** `WordFinder`: the trie of the dictionary, and the search over it. */
  class Finder {
    const root: WordTree

    ghost predicate Valid()
      reads this, root
    {
      root.Valid()
    }

    /** The constructor, with the dictionary's lines given in file order. */
    constructor (words: seq<string>)
      requires forall i :: 0 <= i < |words| ==> LowerWord(words[i]) && |words[i]| >= 1
      ensures Valid() && Arena(root.nodes, root.labels) == Build(words)
    {
      root := new WordTree.FromWords(words);
    }

    /** `getAllWords` on node `n`: returns what it appends to `output`, and
        leaves the buffer restored. */
    method GetAllWords(n: nat, hand: seq<char>, anchor: char, depth: nat, passedAnchor: bool, wordVal: array<char>)
      returns (output: seq<string>)
      requires Linked(root.nodes) && n < |root.nodes| && |hand| >= 1 && HandTiles(hand)
      requires depth + |hand| <= wordVal.Length
      modifies wordVal
      ensures output == Found(root.nodes, n, hand, anchor, passedAnchor, old(wordVal[..depth]))
      ensures Restored(wordVal[..], old(wordVal[..]), depth)
      decreases |hand|, 3
    {
      output := [];
      if root.nodes[n].word.Some? && passedAnchor {
        output := [wordVal[..depth]];
      }
      if |hand| > 1 {
        var found := TryEachTile(n, hand, anchor, depth, passedAnchor, wordVal);
        output := output + found;
      } else if hand[0] == BLANK {
        if passedAnchor {
          var found := LastBlank(n, depth, wordVal);
          output := output + found;
        }
      } else {
        var child := root.nodes[n].children[Slot(hand[0])];
        var passingAnchor := passedAnchor || hand[0] == anchor;
        if passingAnchor && child.Some? && root.nodes[child.value].word.Some? {
          wordVal[depth] := hand[0];
          output := output + [wordVal[..depth]];
        }
      }
      wordVal[depth] := NUL;
    }

    /** The loop of `getAllWords` over a hand of two tiles or more:
        `subInput` holds the hand without tile `i`, rotated one tile per
        step, and `seen` marks the letters already tried. */
    method TryEachTile(n: nat, hand: seq<char>, anchor: char, depth: nat, passedAnchor: bool, wordVal: array<char>)
      returns (output: seq<string>)
      requires Linked(root.nodes) && n < |root.nodes| && |hand| >= 2 && HandTiles(hand)
      requires depth + |hand| <= wordVal.Length
      modifies wordVal
      ensures output == Scan(root.nodes, n, hand, anchor, passedAnchor, old(wordVal[..depth]), |hand|)
      ensures Settled(wordVal[..], old(wordVal[..]), depth)
      decreases |hand|, 2
    {
      var nodes := root.nodes;
      ghost var path := wordVal[..depth];
      ghost var before := wordVal[..];
      output := [];
      var subInput := WithoutFirst(hand);
      var seen := new bool[26](_ => false);
      var i := 0;
      while i < |hand|
        invariant 0 <= i <= |hand|
        invariant i < |hand| ==> subInput[..] == RemoveAt(hand, i)
        invariant forall k :: 0 <= k < 26 ==> (seen[k] <==> k in Tried(hand, i))
        invariant Settled(wordVal[..], before, depth)
        invariant output == Scan(nodes, n, hand, anchor, passedAnchor, path, i)
      {
        ghost var prior := output;
        var found;
        if hand[i] == BLANK {
          found := TryEveryLetter(n, hand, i, subInput, anchor, depth, passedAnchor, wordVal, seen);
        } else {
          found := TryLetter(n, hand, i, subInput, anchor, depth, passedAnchor, wordVal, seen);
        }
        assert nodes == root.nodes;
        output := output + found;
        assert output == prior + Lay(nodes, n, hand, anchor, passedAnchor, path, i);
        if i < subInput.Length {
          RemoveAtShift(hand, i);
          subInput[i] := hand[i];
        }
        i := i + 1;
      }
    }

    /** The body of the loop of `getAllWords` for a letter tile `hand[i]`:
        when its letter was not seen, it is marked seen, and where it has a
        child the search goes on below it with the letter written down. */
    method TryLetter(n: nat, hand: seq<char>, i: nat, subInput: array<char>, anchor: char, depth: nat,
                     passedAnchor: bool, wordVal: array<char>, seen: array<bool>)
      returns (output: seq<string>)
      requires Linked(root.nodes) && n < |root.nodes| && |hand| >= 2 && HandTiles(hand) && i < |hand| && hand[i] != BLANK
      requires subInput[..] == RemoveAt(hand, i) && subInput != wordVal
      requires depth + |hand| <= wordVal.Length
      requires seen.Length == 26 && forall k :: 0 <= k < 26 ==> (seen[k] <==> k in Tried(hand, i))
      modifies wordVal, seen
      ensures output == Tile(root.nodes, n, hand, i, anchor, passedAnchor, old(wordVal[..depth]), Tried(hand, i))
      ensures forall k :: 0 <= k < 26 ==> (seen[k] <==> k in Tried(hand, i) + {Slot(hand[i])})
      ensures Settled(wordVal[..], old(wordVal[..]), depth)
      decreases |hand|, 1
    {
      var nodes := root.nodes;
      ghost var path := wordVal[..depth];
      output := [];
      var charIdx := Slot(hand[i]);
      if !seen[charIdx] {
        seen[charIdx] := true;
        var child := nodes[n].children[charIdx];
        if child.Some? {
          var passingAnchor := passedAnchor || hand[i] == anchor;
          wordVal[depth] := hand[i];
          assert wordVal[..depth + 1] == path + [hand[i]];
          output := GetAllWords(child.value, subInput[..], anchor, depth + 1, passingAnchor, wordVal);
        }
      }
    }

    /** The inner loop of `getAllWords` for a blank tile `hand[i]`: every
        letter from 'a' to 'y' not yet seen is marked seen, and where it has
        a child the search goes on below it with the blank written as a
        capital. */
    method TryEveryLetter(n: nat, hand: seq<char>, i: nat, subInput: array<char>, anchor: char, depth: nat,
                          passedAnchor: bool, wordVal: array<char>, seen: array<bool>)
      returns (output: seq<string>)
      requires Linked(root.nodes) && n < |root.nodes| && |hand| >= 2 && HandTiles(hand) && i < |hand|
      requires subInput[..] == RemoveAt(hand, i) && subInput != wordVal
      requires depth + |hand| <= wordVal.Length
      requires seen.Length == 26 && forall k :: 0 <= k < 26 ==> (seen[k] <==> k in Tried(hand, i))
      modifies wordVal, seen
      ensures output == Wild(root.nodes, n, hand, i, anchor, passedAnchor, old(wordVal[..depth]), 25, Tried(hand, i))
      ensures forall k :: 0 <= k < 26 ==> (seen[k] <==> k in Tried(hand, i) + WILD_SLOTS)
      ensures Settled(wordVal[..], old(wordVal[..]), depth)
      decreases |hand|, 1
    {
      var nodes := root.nodes;
      ghost var path := wordVal[..depth];
      ghost var before := wordVal[..];
      ghost var tried := Tried(hand, i);
      output := [];
      var c := 'a';
      while c < 'z'
        invariant 'a' <= c <= 'z'
        invariant subInput[..] == RemoveAt(hand, i)
        invariant forall k :: 0 <= k < 26 ==> (seen[k] <==> k in tried || k < Slot(c))
        invariant Settled(wordVal[..], before, depth)
        invariant output == Wild(nodes, n, hand, i, anchor, passedAnchor, path, Slot(c), tried)
      {
        var found := TryBlankAs(n, hand, i, subInput, anchor, depth, passedAnchor, wordVal, seen, c, tried);
        assert nodes == root.nodes;
        output := output + found;
        c := (c as int + 1) as char;
      }
    }

    /** One step of that loop, for the letter `c`. */
    method TryBlankAs(n: nat, hand: seq<char>, i: nat, subInput: array<char>, anchor: char, depth: nat,
                      passedAnchor: bool, wordVal: array<char>, seen: array<bool>, c: char, ghost tried: set<int>)
      returns (output: seq<string>)
      requires Linked(root.nodes) && n < |root.nodes| && |hand| >= 2 && HandTiles(hand) && i < |hand|
      requires subInput[..] == RemoveAt(hand, i) && subInput != wordVal
      requires depth + |hand| <= wordVal.Length
      requires 'a' <= c < 'z' && seen.Length == 26 && (seen[Slot(c)] <==> Slot(c) in tried)
      modifies wordVal, seen
      ensures output == BlankAs(root.nodes, n, hand, i, anchor, passedAnchor, old(wordVal[..depth]), Slot(c), tried)
      ensures seen[..] == old(seen[..])[Slot(c) := true]
      ensures Settled(wordVal[..], old(wordVal[..]), depth)
      decreases |hand|, 0
    {
      var nodes := root.nodes;
      ghost var path := wordVal[..depth];
      output := [];
      var charIdx := Slot(c);
      assert Letter(charIdx) == c;
      if !seen[charIdx] {
        seen[charIdx] := true;
        var child := nodes[n].children[charIdx];
        if child.Some? {
          wordVal[depth] := ToUpper(c);
          assert wordVal[..depth + 1] == path + [ToUpper(c)];
          output := GetAllWords(child.value, subInput[..], anchor, depth + 1, passedAnchor, wordVal);
        }
      }
    }

    /** A last tile that is a blank, with the anchor passed: for every letter
        from 'a' to 'y' whose child holds a word, the path is reported (the
        blank's letter is written to the buffer, but not reported). */
    method LastBlank(n: nat, depth: nat, wordVal: array<char>) returns (output: seq<string>)
      requires Linked(root.nodes) && n < |root.nodes| && depth < wordVal.Length
      modifies wordVal
      ensures output == LastWild(root.nodes, n, old(wordVal[..depth]), 25)
      ensures Settled(wordVal[..], old(wordVal[..]), depth)
    {
      var nodes := root.nodes;
      ghost var path := wordVal[..depth];
      ghost var before := wordVal[..];
      output := [];
      var c := 'a';
      while c < 'z'
        invariant 'a' <= c <= 'z'
        invariant Settled(wordVal[..], before, depth)
        invariant output == LastWild(nodes, n, path, Slot(c))
      {
        var child := nodes[n].children[Slot(c)];
        if child.Some? && nodes[child.value].word.Some? {
          wordVal[depth] := ToUpper(c);
          output := output + [wordVal[..depth]];
        }
        c := (c as int + 1) as char;
      }
    }

    /** `getAvailableWords(hand, output)`: every string the hand can spell,
        with no anchor; an empty hand makes the search index past its end
        (None). */
    method GetAvailableWords(hand: seq<char>) returns (output: Option<seq<string>>)
      requires Linked(root.nodes) && HandTiles(hand) && |hand| <= 100
      ensures output.None? <==> |hand| == 0
      ensures output.Some? ==> output.value == Found(root.nodes, 0, ParsedHand(hand, BLANK), BLANK, true, [])
    {
      var parsedHand := ParseHand(hand, BLANK);
      if parsedHand.Length == 0 {
        return None;
      }
      var wordVal := new char[100](_ => NUL);
      var found := GetAllWords(0, parsedHand[..], BLANK, 0, true, wordVal);
      return Some(found);
    }

    /** `getAvailableWords(hand, anchor, output)`: as above, but a string is
        reported only once a tile equal to `anchor` has been laid. */
    method GetAnchoredWords(hand: seq<char>, anchor: char) returns (output: Option<seq<string>>)
      requires Linked(root.nodes) && HandTiles(hand) && |hand| <= 100
      ensures output.None? <==> |hand| == 0
      ensures output.Some? ==> output.value == Found(root.nodes, 0, ParsedHand(hand, BLANK), anchor, false, [])
    {
      var parsedHand := ParseHand(hand, BLANK);
      if parsedHand.Length == 0 {
        return None;
      }
      var wordVal := new char[100](_ => NUL);
      var found := GetAllWords(0, parsedHand[..], anchor, 0, false, wordVal);
      return Some(found);
    }
  }
}
