/** The first word finder: every word of the trie that can be spelt with some
    of the tiles of a hand, where a blank stands for the letter 'e'. From each
    node the search tries every distinct tile of the remaining hand once, goes
    down to the child of that letter, and reports every word it passes. */
module LegacyWordFinder {
  import opened Common
  import opened WordTrie
  import opened HandParsing

  // ---------------------------------------------------------------------------
  // The search, as functions

  /** The words `getAllWords(input)` adds, in order, starting at node `n`:
      the node's own word, then the words below each distinct tile of the
      input; with a single tile left, only the word on that tile's child. */
  function Words(nodes: seq<WordNode>, n: nat, input: seq<char>): (r: seq<string>)
    requires Linked(nodes) && n < |nodes| && |input| >= 1 && LowerWord(input)
    decreases |input|, 1
  {
    (if nodes[n].word.Some? then [nodes[n].word.value] else [])
    + if |input| > 1 then Expand(nodes, n, input, 0, {}) else LastTile(nodes, n, input[0])
  }

  /** The loop over the tiles `input[i..]`, `seen` holding the child slots
      of the letters already tried at this node. */
  function Expand(nodes: seq<WordNode>, n: nat, input: seq<char>, i: nat, seen: set<int>): (r: seq<string>)
    requires Linked(nodes) && n < |nodes| && |input| >= 2 && LowerWord(input) && i <= |input|
    decreases |input|, 0, |input| - i
  {
    if i == |input| then []
    else
      Attempt(nodes, n, input, i, seen) + Expand(nodes, n, input, i + 1, seen + {Slot(input[i])})
  }

  /** What trying tile `i` adds: nothing when its letter was tried before or
      has no child, else the words below that child with the other tiles. */
  function Attempt(nodes: seq<WordNode>, n: nat, input: seq<char>, i: nat, seen: set<int>): (r: seq<string>)
    requires Linked(nodes) && n < |nodes| && |input| >= 2 && LowerWord(input) && i < |input|
    decreases |input|, 0, 0
  {
    if Slot(input[i]) in seen then []
    else match nodes[n].children[Slot(input[i])]
      case None => []
      case Some(child) => Words(nodes, child, RemoveAt(input, i))
  }

  /** The word on the child of the last tile, if any. */
  function LastTile(nodes: seq<WordNode>, n: nat, c: char): (r: seq<string>)
    requires Linked(nodes) && n < |nodes| && IsLower(c)
    ensures |r| <= 1
  {
    match nodes[n].children[Slot(c)]
    case None => []
    case Some(child) => if nodes[child].word.Some? then [nodes[child].word.value] else []
  }

  // ---------------------------------------------------------------------------
  // Properties of the search

  /** Everything reported is a word of the trie. */
  lemma {:induction false} WordsAreStored(nodes: seq<WordNode>, n: nat, input: seq<char>)
    requires Linked(nodes) && n < |nodes| && |input| >= 1 && LowerWord(input)
    ensures forall w :: w in Words(nodes, n, input) ==> w in StoredWords(nodes)
    decreases |input|, 1
  {
    if |input| > 1 {
      ExpandAreStored(nodes, n, input, 0, {});
    }
  }

  lemma {:induction false} ExpandAreStored(nodes: seq<WordNode>, n: nat, input: seq<char>, i: nat, seen: set<int>)
    requires Linked(nodes) && n < |nodes| && |input| >= 2 && LowerWord(input) && i <= |input|
    ensures forall w :: w in Expand(nodes, n, input, i, seen) ==> w in StoredWords(nodes)
    decreases |input|, 0, |input| - i
  {
    if i < |input| {
      var c := input[i];
      if Slot(c) !in seen && nodes[n].children[Slot(c)].Some? {
        WordsAreStored(nodes, nodes[n].children[Slot(c)].value, RemoveAt(input, i));
      }
      ExpandAreStored(nodes, n, input, i + 1, seen + {Slot(c)});
    }
  }

  /** Everything reported below node `n` can be spelt from the letters leading
      to `n` and tiles of the input; from the root, everything but the root's
      own one-letter word is spelt from tiles of the input alone. */
  lemma {:induction false} WordsFromHand(a: Arena, n: nat, input: seq<char>)
    requires ValidArena(a) && n < |a.nodes| && |input| >= 1 && LowerWord(input)
    ensures forall w :: w in Words(a.nodes, n, input) ==>
              (n == 0 && a.nodes[0].word == Some(w)) || multiset(w) <= multiset(a.labels[n]) + multiset(input)
    decreases |input|, 1
  {
    if |input| > 1 {
      ExpandFromHand(a, n, input, 0, {});
    } else {
      match a.nodes[n].children[Slot(input[0])]
      case None =>
      case Some(child) =>
        assert Letter(Slot(input[0])) == input[0];
        assert a.labels[child] == a.labels[n] + input;
    }
    if n > 0 && a.nodes[n].word.Some? {
      assert a.nodes[n].word.value == a.labels[n];
    }
  }

  lemma {:induction false} ExpandFromHand(a: Arena, n: nat, input: seq<char>, i: nat, seen: set<int>)
    requires ValidArena(a) && n < |a.nodes| && |input| >= 2 && LowerWord(input) && i <= |input|
    ensures forall w :: w in Expand(a.nodes, n, input, i, seen) ==> multiset(w) <= multiset(a.labels[n]) + multiset(input)
    decreases |input|, 0, |input| - i
  {
    if i < |input| {
      var c := input[i];
      if Slot(c) !in seen && a.nodes[n].children[Slot(c)].Some? {
        var child := a.nodes[n].children[Slot(c)].value;
        var rest := RemoveAt(input, i);
        WordsFromHand(a, child, rest);
        assert a.labels[child] == a.labels[n] + [Letter(Slot(c))];
        assert multiset(a.labels[child]) + multiset(rest) == multiset(a.labels[n]) + multiset(input) by {
          RemoveAtTiles(input, i);
        }
      }
      ExpandFromHand(a, n, input, i + 1, seen + {Slot(c)});
    }
  }

  /** No word is reported twice: each distinct tile is tried once per node,
      and the subtrees of two letters hold different words. */
  predicate Distinct(s: seq<string>) {
    forall i, j :: 0 <= i < j < |s| ==> s[i] != s[j]
  }

  lemma DistinctConcat(s: seq<string>, t: seq<string>)
    requires Distinct(s) && Distinct(t)
    requires forall w :: w in s ==> w !in t
    ensures Distinct(s + t)
  {
    forall i, j | 0 <= i < j < |s + t|
      ensures (s + t)[i] != (s + t)[j]
    {
      if j >= |s| && i < |s| {
        assert (s + t)[i] in s && (s + t)[j] in t;
      }
    }
  }

  /** Every word reported below a node `n` other than the root extends the
      node's letters; below the root, every word but the root's own has at
      least two letters. */
  predicate Below(a: Arena, n: nat, w: string)
    requires Sized(a) && n < |a.nodes|
  {
    |a.labels[n]| <= |w| && w[..|a.labels[n]|] == a.labels[n] && |w| >= 2
  }

  /** Words reported below node `n` are its own word, or longer words that
      start with its letters. */
  lemma {:induction false} WordsShape(a: Arena, n: nat, input: seq<char>)
    requires ValidArena(a) && n < |a.nodes| && |input| >= 1 && LowerWord(input)
    ensures forall w :: w in Words(a.nodes, n, input) ==>
              a.nodes[n].word == Some(w) || (Below(a, n, w) && |w| > |a.labels[n]|)
    decreases |input|, 2
  {
    if |input| > 1 {
      ExpandShape(a, n, input, 0, {});
    } else {
      match a.nodes[n].children[Slot(input[0])]
      case None =>
      case Some(child) =>
        assert a.labels[child] == a.labels[n] + [Letter(Slot(input[0]))];
    }
  }

  /** The words of the loop from tile `i` on continue the node's letters with
      a letter not tried before tile `i`. */
  lemma {:induction false} ExpandShape(a: Arena, n: nat, input: seq<char>, i: nat, seen: set<int>)
    requires ValidArena(a) && n < |a.nodes| && |input| >= 2 && LowerWord(input) && i <= |input|
    ensures forall w :: w in Expand(a.nodes, n, input, i, seen) ==>
              Below(a, n, w) && |w| > |a.labels[n]| && IsLower(w[|a.labels[n]|]) && Slot(w[|a.labels[n]|]) !in seen
    decreases |input|, 1, |input| - i
  {
    if i < |input| {
      AttemptShape(a, n, input, i, seen);
      ExpandShape(a, n, input, i + 1, seen + {Slot(input[i])});
    }
  }

  /** The words found by trying tile `i` continue the node's letters with
      that tile. */
  lemma {:induction false} AttemptShape(a: Arena, n: nat, input: seq<char>, i: nat, seen: set<int>)
    requires ValidArena(a) && n < |a.nodes| && |input| >= 2 && LowerWord(input) && i < |input|
    ensures forall w :: w in Attempt(a.nodes, n, input, i, seen) ==>
              Below(a, n, w) && |w| > |a.labels[n]| && w[|a.labels[n]|] == input[i] && Slot(input[i]) !in seen
    decreases |input|, 0, 0
  {
    var c := input[i];
    var L := |a.labels[n]|;
    if Slot(c) !in seen && a.nodes[n].children[Slot(c)].Some? {
      var child := a.nodes[n].children[Slot(c)].value;
      WordsShape(a, child, RemoveAt(input, i));
      assert Letter(Slot(c)) == c;
      assert a.labels[child] == a.labels[n] + [c];
      forall w | w in Attempt(a.nodes, n, input, i, seen)
        ensures Below(a, n, w) && |w| > L && w[L] == c
      {
        ChildWord(a, n, child, c, w);
      }
    }
  }

  /** A word found below a child continues its parent's letters with the
      child's letter. */
  lemma ChildWord(a: Arena, n: nat, child: nat, c: char, w: string)
    requires ValidArena(a) && n < |a.nodes| && child < |a.nodes| && a.labels[child] == a.labels[n] + [c]
    requires a.nodes[child].word == Some(w) || (Below(a, child, w) && |w| > |a.labels[child]|)
    ensures Below(a, n, w) && |w| > |a.labels[n]| && w[|a.labels[n]|] == c
  {
    var L := |a.labels[n]|;
    assert child != 0 by {
      assert a.labels[child] != a.labels[0];
    }
    if a.nodes[child].word == Some(w) {
      assert w[..L + 1] == w == a.labels[child];
    }
    ExtendsLabel(w, a.labels[n], c);
  }

  lemma ExtendsLabel(w: string, p: string, c: char)
    requires |p| + 1 <= |w| && w[..|p| + 1] == p + [c]
    ensures w[..|p|] == p && w[|p|] == c
  {
    assert w[..|p|] == w[..|p| + 1][..|p|];
    assert w[|p|] == w[..|p| + 1][|p|];
  }

  lemma {:induction false} WordsDistinct(a: Arena, n: nat, input: seq<char>)
    requires ValidArena(a) && n < |a.nodes| && |input| >= 1 && LowerWord(input)
    ensures Distinct(Words(a.nodes, n, input))
    decreases |input|, 1
  {
    var own := if a.nodes[n].word.Some? then [a.nodes[n].word.value] else [];
    var rest := if |input| > 1 then Expand(a.nodes, n, input, 0, {}) else LastTile(a.nodes, n, input[0]);
    assert Words(a.nodes, n, input) == own + rest;
    if |input| > 1 {
      ExpandDistinct(a, n, input, 0, {});
      ExpandShape(a, n, input, 0, {});
    } else {
      match a.nodes[n].children[Slot(input[0])]
      case None =>
      case Some(child) =>
        assert a.labels[child] == a.labels[n] + [Letter(Slot(input[0]))];
    }
    forall w | w in own
      ensures w !in rest
    {
      if n == 0 {
        assert |w| == 1;
      } else {
        assert w == a.labels[n];
      }
    }
    DistinctConcat(own, rest);
  }

  lemma {:induction false} ExpandDistinct(a: Arena, n: nat, input: seq<char>, i: nat, seen: set<int>)
    requires ValidArena(a) && n < |a.nodes| && |input| >= 2 && LowerWord(input) && i <= |input|
    ensures Distinct(Expand(a.nodes, n, input, i, seen))
    decreases |input|, 0, |input| - i
  {
    if i < |input| {
      var c := input[i];
      var L := |a.labels[n]|;
      var here := Attempt(a.nodes, n, input, i, seen);
      var later := Expand(a.nodes, n, input, i + 1, seen + {Slot(c)});
      ExpandDistinct(a, n, input, i + 1, seen + {Slot(c)});
      ExpandShape(a, n, input, i + 1, seen + {Slot(c)});
      AttemptShape(a, n, input, i, seen);
      if Slot(c) !in seen && a.nodes[n].children[Slot(c)].Some? {
        WordsDistinct(a, a.nodes[n].children[Slot(c)].value, RemoveAt(input, i));
      }
      DistinctConcat(here, later);
    }
  }

  // ---------------------------------------------------------------------------
  // Nothing is missed

  /** The first position of `c` in `s`. */
  function FirstAt(s: seq<char>, c: char): (i: nat)
    requires c in s
    ensures i < |s| && s[i] == c && forall k :: 0 <= k < i ==> s[k] != c
  {
    if s[0] == c then 0 else 1 + FirstAt(s[1..], c)
  }

  /** The child slots of the tiles `input[j..i]`. */
  function SlotsBetween(input: seq<char>, j: nat, i: nat): set<int>
    requires LowerWord(input) && j <= i <= |input|
  {
    set k | j <= k < i :: Slot(input[k])
  }

  /** A word that trying tile `i` reports, after the tiles from `j` on were
      tried, is reported by the loop started at `j`. */
  lemma {:induction false} ExpandHas(nodes: seq<WordNode>, n: nat, input: seq<char>, j: nat, seen: set<int>, i: nat, w: string)
    requires Linked(nodes) && n < |nodes| && |input| >= 2 && LowerWord(input) && j <= i < |input|
    requires w in Attempt(nodes, n, input, i, seen + SlotsBetween(input, j, i))
    ensures w in Expand(nodes, n, input, j, seen)
    decreases i - j
  {
    if j < i {
      assert seen + SlotsBetween(input, j, i) == (seen + {Slot(input[j])}) + SlotsBetween(input, j + 1, i);
      ExpandHas(nodes, n, input, j + 1, seen + {Slot(input[j])}, i, w);
    } else {
      assert seen + SlotsBetween(input, j, i) == seen;
    }
  }

  /** Using the tile that spells `w[d]` leaves the tiles that spell the rest. */
  lemma TakeTile(w: string, d: nat, input: seq<char>, i: nat)
    requires d < |w| && i < |input| && input[i] == w[d] && multiset(w[d..]) <= multiset(input)
    ensures multiset(w[d + 1..]) <= multiset(RemoveAt(input, i))
  {
    assert w[d..] == [w[d]] + w[d + 1..];
    RemoveAtTiles(input, i);
    forall x
      ensures multiset(w[d + 1..])[x] <= multiset(RemoveAt(input, i))[x]
    {
      assert multiset(w[d..])[x] == multiset(w[d + 1..])[x] + multiset{w[d]}[x];
    }
  }

  /** With one tile left, the rest of `w` is that tile. */
  lemma OneTileLeft(w: string, d: nat, input: seq<char>)
    requires d < |w| && |input| == 1 && multiset(w[d..]) <= multiset(input)
    ensures d + 1 == |w| && w[d] == input[0]
  {
    assert multiset(input) == multiset{input[0]};
    assert w[d..] == [w[d]] + w[d + 1..];
    assert w[d] in multiset(input);
    var tail := w[d + 1..];
    forall x
      ensures multiset(tail)[x] == 0
    {
      assert multiset(w[d..])[x] == multiset{w[d]}[x] + multiset(tail)[x];
    }
    assert multiset(tail) == multiset{};
    assert |tail| == |multiset(tail)|;
  }

  /** The slot of the first tile of its letter was not tried before it. */
  lemma FirstSlotFresh(input: seq<char>, i: nat)
    requires LowerWord(input) && i < |input| && forall k :: 0 <= k < i ==> input[k] != input[i]
    ensures Slot(input[i]) !in SlotsBetween(input, 0, i)
  {
    forall k | 0 <= k < i
      ensures Slot(input[k]) != Slot(input[i])
    {
      assert Letter(Slot(input[k])) == input[k];
      assert Letter(Slot(input[i])) == input[i];
    }
  }

  /** A word whose path from `n` is spelt by its letters `w[d..]`, all of
      them among the tiles of the input, is reported by the search from `n`. */
  lemma {:induction false} WordsFind(nodes: seq<WordNode>, n: nat, input: seq<char>, w: string, d: nat)
    requires Linked(nodes) && n < |nodes| && |input| >= 1 && LowerWord(input) && LowerWord(w) && d < |w|
    requires Find(nodes, n, w, d).Some? && nodes[Find(nodes, n, w, d).value].word == Some(w)
    requires multiset(w[d..]) <= multiset(input)
    ensures w in Words(nodes, n, input)
    decreases |input|
  {
    var c := w[d];
    var child := nodes[n].children[Slot(c)].value;
    assert Find(nodes, n, w, d) == Find(nodes, child, w, d + 1);
    if |input| == 1 {
      OneTileLeft(w, d, input);
      assert LastTile(nodes, n, input[0]) == [w];
    } else {
      assert w[d..] == [c] + w[d + 1..];
      assert c in multiset(input);
      var i := FirstAt(input, c);
      var rest := RemoveAt(input, i);
      TakeTile(w, d, input, i);
      if d + 1 < |w| {
        WordsFind(nodes, child, rest, w, d + 1);
      }
      FirstSlotFresh(input, i);
      assert Attempt(nodes, n, input, i, {} + SlotsBetween(input, 0, i)) == Words(nodes, child, rest);
      ExpandHas(nodes, n, input, 0, {}, i, w);
    }
  }

  // ---------------------------------------------------------------------------
  // The finder

  /** `WordFinder`: the trie of the dictionary, and the search over it. */
  class Finder {
    const root: WordTree

    ghost predicate Valid()
      reads this, root
    {
      root.Valid()
    }

    /** The constructor, with the dictionary's lines given in file order. */
    constructor (words: seq<string>)
      requires forall i :: 0 <= i < |words| ==> LowerWord(words[i]) && |words[i]| >= 1
      ensures Valid() && Arena(root.nodes, root.labels) == Build(words)
    {
      root := new WordTree.FromWords(words);
    }

    /** `getAllWords(input, output)` on node `n`: returns what it appends. */
    method GetAllWords(n: nat, input: seq<char>) returns (output: seq<string>)
      requires Linked(root.nodes) && n < |root.nodes| && |input| >= 1 && LowerWord(input)
      ensures output == Words(root.nodes, n, input)
      decreases |input|, 2
    {
      output := [];
      if root.nodes[n].word.Some? {
        output := output + [root.nodes[n].word.value];
      }
      if |input| > 1 {
        var found := TryEachTile(n, input);
        output := output + found;
      } else {
        var child := root.nodes[n].children[Slot(input[0])];
        if child.Some? && root.nodes[child.value].word.Some? {
          output := output + [root.nodes[child.value].word.value];
        }
      }
    }

    /** The loop of `getAllWords` over the tiles of a hand of two or more:
        `subInput` holds the hand without tile `i`, rotated one tile per
        step, and `seen` marks the letters already tried. */
    method TryEachTile(n: nat, input: seq<char>) returns (output: seq<string>)
      requires Linked(root.nodes) && n < |root.nodes| && |input| >= 2 && LowerWord(input)
      ensures output == Expand(root.nodes, n, input, 0, {})
      decreases |input|, 1
    {
      var nodes := root.nodes;
      output := [];
      var subInput := WithoutFirst(input);
      var seen := new bool[26](_ => false);
      ghost var tried: set<int> := {};
      var i := 0;
      while i < |input|
        invariant 0 <= i <= |input|
        invariant i < |input| ==> subInput[..] == RemoveAt(input, i)
        invariant forall k :: 0 <= k < 26 ==> (seen[k] <==> k in tried)
        invariant output + Expand(nodes, n, input, i, tried) == Expand(nodes, n, input, 0, {})
      {
        ghost var before := output;
        ghost var rest := Expand(nodes, n, input, i + 1, tried + {Slot(input[i])});
        assert Expand(nodes, n, input, i, tried) == Attempt(nodes, n, input, i, tried) + rest;
        var found := TryTile(n, input, i, subInput, seen, tried);
        assert nodes == root.nodes;
        output := output + found;
        assert output + rest == before + Expand(nodes, n, input, i, tried);
        tried := tried + {Slot(input[i])};
        if i < subInput.Length {
          RemoveAtShift(input, i);
          subInput[i] := input[i];
        }
        i := i + 1;
      }
    }

    /** The body of the loop of `getAllWords` for tile `i`: when its letter
        was not seen, it is marked seen, and where it has a child the search
        goes on below it with the other tiles. */
    method TryTile(n: nat, input: seq<char>, i: nat, subInput: array<char>, seen: array<bool>, ghost tried: set<int>)
      returns (found: seq<string>)
      requires Linked(root.nodes) && n < |root.nodes| && |input| >= 2 && LowerWord(input) && i < |input|
      requires subInput[..] == RemoveAt(input, i)
      requires seen.Length == 26 && forall k :: 0 <= k < 26 ==> (seen[k] <==> k in tried)
      modifies seen
      ensures found == Attempt(root.nodes, n, input, i, tried)
      ensures forall k :: 0 <= k < 26 ==> (seen[k] <==> k in tried + {Slot(input[i])})
      decreases |input|, 0
    {
      found := [];
      var charIdx := Slot(input[i]);
      if !seen[charIdx] {
        seen[charIdx] := true;
        var child := root.nodes[n].children[charIdx];
        if child.Some? {
          found := GetAllWords(child.value, subInput[..]);
        }
      }
    }

    /** `getAvailableWords(hand, output)`: the blanks become 'e' and the search
        starts at the root; an empty hand makes the search index past the end
        of it (None). */
    method GetAvailableWords(hand: seq<char>) returns (output: Option<seq<string>>)
      requires Linked(root.nodes)
      requires HandTiles(hand)
      ensures output.None? <==> |hand| == 0
      ensures output.Some? ==> output.value == Words(root.nodes, 0, ParsedHand(hand, 'e'))
    {
      var parsedHand := ParseHand(hand, 'e');
      if parsedHand.Length == 0 {
        return None;
      }
      var found := GetAllWords(0, parsedHand[..]);
      return Some(found);
    }
  }

  /** What the finder reports for a hand: words of the dictionary, none twice,
      each spelt from tiles of the hand where a blank counts as an 'e' (the
      root's one-letter word excepted). */
  lemma AvailableWords(a: Arena, hand: seq<char>)
    requires ValidArena(a) && |hand| >= 1
    requires HandTiles(hand)
    ensures var found := Words(a.nodes, 0, ParsedHand(hand, 'e'));
            && Distinct(found)
            && (forall w :: w in found ==> w in StoredWords(a.nodes))
            && (forall w, c :: w in found && a.nodes[0].word != Some(w) ==>
                  multiset(w)[c] <= (if c == 'e' then multiset(hand)['e'] + multiset(hand)[BLANK]
                                     else if c == BLANK then 0 else multiset(hand)[c]))
  {
    var parsed := ParsedHand(hand, 'e');
    WordsDistinct(a, 0, parsed);
    WordsAreStored(a.nodes, 0, parsed);
    WordsFromHand(a, 0, parsed);
    forall w, c | w in Words(a.nodes, 0, parsed) && a.nodes[0].word != Some(w)
      ensures multiset(w)[c] <= (if c == 'e' then multiset(hand)['e'] + multiset(hand)[BLANK]
                                 else if c == BLANK then 0 else multiset(hand)[c])
    {
      assert multiset(w)[c] <= multiset(parsed)[c];
      ParsedHandReplacesBlanks(hand, 'e', c);
    }
  }

  /** The converse of `AvailableWords` for a finder loaded from a word list:
      every word of the list of two letters or more that can be spelt with
      the hand, a blank standing for an 'e', is reported. */
  lemma AvailableWordsComplete(words: seq<string>, hand: seq<char>)
    requires forall i :: 0 <= i < |words| ==> LowerWord(words[i]) && |words[i]| >= 1
    requires HandTiles(hand) && |hand| >= 1
    ensures forall w :: w in StoredWords(Build(words).nodes) && |w| >= 2
              && (forall c :: multiset(w)[c] <= (if c == 'e' then multiset(hand)['e'] + multiset(hand)[BLANK]
                                                 else if c == BLANK then 0 else multiset(hand)[c]))
              ==> w in Words(Build(words).nodes, 0, ParsedHand(hand, 'e'))
  {
    var nodes := Build(words).nodes;
    var parsed := ParsedHand(hand, 'e');
    BuildProperties(words);
    forall w | w in StoredWords(nodes) && |w| >= 2
              && (forall c :: multiset(w)[c] <= (if c == 'e' then multiset(hand)['e'] + multiset(hand)[BLANK]
                                                 else if c == BLANK then 0 else multiset(hand)[c]))
      ensures w in Words(nodes, 0, parsed)
    {
      var i :| 0 <= i < |words| && words[i] == w;
      assert PathHolds(nodes, w);
      forall c
        ensures multiset(w)[c] <= multiset(parsed)[c]
      {
        ParsedHandReplacesBlanks(hand, 'e', c);
      }
      assert w[0..] == w;
      WordsFind(nodes, 0, parsed, w, 0);
    }
  }

  /** The search drops nothing on the last tile: with the dictionary "at" and
      the hand "at", the word "at" is reported. */
  lemma LastTileReportsWord()
    ensures Words(Build(["at"]).nodes, 0, "at") == ["at"]
  {
  }
}
