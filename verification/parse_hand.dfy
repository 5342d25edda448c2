/** Preparing a hand for the word search: the tiles that are not blanks keep
    their order and come first, and one filler character per blank comes
    after them. The newer finder fills with '_' (the blank itself, handled by
    the search); the older one fills with 'e'. */
module HandParsing {
  import opened Common

  /** A hand of letter tiles and blanks. */
  predicate HandTiles(hand: seq<char>) {
    forall i :: 0 <= i < |hand| ==> IsLower(hand[i]) || hand[i] == BLANK
  }

  /** The tiles of `hand` that are not blanks, in order. */
  function NonBlanks(hand: seq<char>): (r: seq<char>)
    ensures |r| <= |hand|
    ensures forall i :: 0 <= i < |r| ==> r[i] != BLANK
  {
    if hand == [] then []
    else NonBlanks(hand[..|hand| - 1]) + (if hand[|hand| - 1] == BLANK then [] else [hand[|hand| - 1]])
  }

  /** Of a hand of letters and blanks, the non-blanks are letters. */
  lemma {:induction false} NonBlanksLower(hand: seq<char>)
    ensures HandTiles(hand) ==> forall i :: 0 <= i < |NonBlanks(hand)| ==> IsLower(NonBlanks(hand)[i])
  {
    if hand != [] && HandTiles(hand) {
      NonBlanksLower(hand[..|hand| - 1]);
    }
  }

  /** The hand as the search receives it. */
  function ParsedHand(hand: seq<char>, filler: char): (r: seq<char>)
    ensures |r| == |hand|
    ensures HandTiles(hand) && IsLower(filler) ==> forall i :: 0 <= i < |r| ==> IsLower(r[i])
    ensures HandTiles(hand) && (IsLower(filler) || filler == BLANK) ==> HandTiles(r)
  {
    NonBlanksLower(hand);
    NonBlanks(hand) + Repeat(filler, |hand| - |NonBlanks(hand)|)
  }

  /** The blanks of `hand`. */
  function Blanks(hand: seq<char>): (r: seq<char>)
    ensures |NonBlanks(hand)| + |r| == |hand|
  {
    if hand == [] then []
    else Blanks(hand[..|hand| - 1]) + (if hand[|hand| - 1] == BLANK then [BLANK] else [])
  }

  lemma SnocTiles(kept: seq<char>, blanks: seq<char>, init: seq<char>, last: char)
    requires multiset(kept) + multiset(blanks) == multiset(init)
    ensures multiset(kept + [last]) + multiset(blanks) == multiset(init + [last])
    ensures multiset(kept) + multiset(blanks + [last]) == multiset(init + [last])
  {
  }

  lemma {:induction false} NonBlanksAndBlanksSplit(hand: seq<char>)
    ensures multiset(NonBlanks(hand)) + multiset(Blanks(hand)) == multiset(hand)
  {
    if hand != [] {
      var init := hand[..|hand| - 1];
      var last := hand[|hand| - 1];
      NonBlanksAndBlanksSplit(init);
      assert hand == init + [last];
      SnocTiles(NonBlanks(init), Blanks(init), init, last);
    }
  }

  lemma {:induction false} BlanksRepeat(hand: seq<char>)
    ensures Blanks(hand) == Repeat(BLANK, |hand| - |NonBlanks(hand)|)
  {
    if hand != [] {
      BlanksRepeat(hand[..|hand| - 1]);
    }
  }

  /** The non-blank tiles and the blanks together are the hand. */
  lemma NonBlanksAndBlanks(hand: seq<char>)
    ensures multiset(NonBlanks(hand)) + multiset(Repeat(BLANK, |hand| - |NonBlanks(hand)|)) == multiset(hand)
  {
    NonBlanksAndBlanksSplit(hand);
    BlanksRepeat(hand);
  }

  /** With '_' as filler the parsed hand is a rearrangement of the hand, the
      blanks moved to the end. */
  lemma ParsedHandRearranges(hand: seq<char>)
    ensures multiset(ParsedHand(hand, BLANK)) == multiset(hand)
    ensures forall i, j :: 0 <= i < j < |hand| && ParsedHand(hand, BLANK)[i] == BLANK ==> ParsedHand(hand, BLANK)[j] == BLANK
  {
    var parsed := ParsedHand(hand, BLANK);
    var kept := NonBlanks(hand);
    assert parsed == kept + Repeat(BLANK, |hand| - |kept|);
    assert multiset(parsed) == multiset(hand) by {
      NonBlanksAndBlanks(hand);
    }
    assert forall k :: 0 <= k < |kept| ==> parsed[k] == kept[k];
    forall i, j | 0 <= i < j < |hand| && parsed[i] == BLANK
      ensures parsed[j] == BLANK
    {
      assert i >= |kept|;
    }
  }

  lemma {:induction false} RepeatCount(filler: char, n: nat, c: char)
    ensures multiset(Repeat(filler, n))[c] == if c == filler then n else 0
  {
    if n > 0 {
      var r := Repeat(filler, n - 1);
      RepeatCount(filler, n - 1, c);
      assert multiset(r + [filler]) == multiset(r) + multiset{filler};
    }
  }

  lemma FillerCount(kept: seq<char>, n: nat, filler: char, c: char)
    ensures multiset(kept + Repeat(filler, n))[c] == multiset(kept)[c] + (if c == filler then n else 0)
  {
    RepeatCount(filler, n, c);
  }

  /** With another filler, each blank of the hand becomes one filler tile and
      every other tile count is unchanged. */
  lemma ParsedHandReplacesBlanks(hand: seq<char>, filler: char, c: char)
    requires filler != BLANK
    ensures multiset(ParsedHand(hand, filler))[c]
            == if c == filler then multiset(hand)[filler] + multiset(hand)[BLANK]
               else if c == BLANK then 0
               else multiset(hand)[c]
  {
    var n := |hand| - |NonBlanks(hand)|;
    var kept := NonBlanks(hand);
    assert multiset(kept + Repeat(BLANK, n)) == multiset(hand) by {
      NonBlanksAndBlanks(hand);
    }
    assert multiset(hand)[c] == multiset(kept)[c] + (if c == BLANK then n else 0) by {
      FillerCount(kept, n, BLANK, c);
    }
    assert multiset(hand)[BLANK] == multiset(kept)[BLANK] + n by {
      FillerCount(kept, n, BLANK, BLANK);
    }
    assert multiset(hand)[filler] == multiset(kept)[filler] by {
      FillerCount(kept, n, BLANK, filler);
    }
    FillerCount(kept, n, filler, c);
    assert multiset(kept)[BLANK] == 0 by {
      assert BLANK !in kept;
    }
  }

  /** The hand without its tile at index `i` (the `subInput` of the search
      when it tries tile `i`). */
  function RemoveAt(hand: seq<char>, i: nat): (r: seq<char>)
    requires i < |hand|
    ensures |r| == |hand| - 1
    ensures forall j :: 0 <= j < |r| ==> r[j] == hand[if j < i then j else j + 1]
  {
    hand[..i] + hand[i + 1..]
  }

  /** Removing a tile and putting it back gives the same tiles. */
  lemma RemoveAtTiles(hand: seq<char>, i: nat)
    requires i < |hand|
    ensures multiset(RemoveAt(hand, i)) + multiset{hand[i]} == multiset(hand)
  {
    assert hand == hand[..i] + [hand[i]] + hand[i + 1..];
  }

  /** Putting tile `i` back where the next tile was gives the hand without
      the next tile: the step of the search's rotation of `subInput`. */
  lemma RemoveAtShift(hand: seq<char>, i: nat)
    requires i + 1 < |hand|
    ensures RemoveAt(hand, i)[i := hand[i]] == RemoveAt(hand, i + 1)
  {
  }

  /** The first `subInput`: a new array holding the hand but its first tile. */
  method WithoutFirst(hand: seq<char>) returns (subInput: array<char>)
    requires |hand| >= 1
    ensures fresh(subInput) && subInput[..] == RemoveAt(hand, 0)
  {
    subInput := new char[|hand| - 1];
    var i := 0;
    while i < subInput.Length
      invariant 0 <= i <= subInput.Length
      invariant forall k :: 0 <= k < i ==> subInput[k] == hand[k + 1]
    {
      subInput[i] := hand[i + 1];
      i := i + 1;
    }
  }

  /** `parseHand`: copies the non-blank tiles to the front of a new array,
      then writes `filler` over its last squares, once per blank. */
  method ParseHand(hand: seq<char>, filler: char) returns (parsedHand: array<char>)
    ensures fresh(parsedHand) && parsedHand[..] == ParsedHand(hand, filler)
  {
    parsedHand := new char[|hand|];
    var foundBlanks := 0;
    var currentIdx := 0;
    var i := 0;
    while i < |hand|
      invariant 0 <= i <= |hand|
      invariant currentIdx == |NonBlanks(hand[..i])| && foundBlanks == i - currentIdx
      invariant parsedHand[..currentIdx] == NonBlanks(hand[..i])
    {
      assert hand[..i + 1][..i] == hand[..i];
      ghost var kept := parsedHand[..currentIdx];
      assert NonBlanks(hand[..i + 1]) == kept + if hand[i] == BLANK then [] else [hand[i]];
      if hand[i] == BLANK {
        foundBlanks := foundBlanks + 1;
      } else {
        parsedHand[currentIdx] := hand[i];
        assert parsedHand[..currentIdx + 1] == kept + [hand[i]];
        currentIdx := currentIdx + 1;
      }
      i := i + 1;
    }
    assert hand[..|hand|] == hand;
    var j := 0;
    while j < foundBlanks
      invariant 0 <= j <= foundBlanks
      invariant parsedHand[..currentIdx] == NonBlanks(hand)
      invariant forall k :: parsedHand.Length - j <= k < parsedHand.Length ==> parsedHand[k] == filler
    {
      parsedHand[parsedHand.Length - 1 - j] := filler;
      j := j + 1;
    }
    assert parsedHand[..] == parsedHand[..currentIdx] + parsedHand[currentIdx..];
    assert parsedHand[currentIdx..] == Repeat(filler, |hand| - |NonBlanks(hand)|);
  }

  /** A hand of tiles stays one with a letter tile added. */
  lemma HandPlusTile(hand: seq<char>, c: char)
    requires HandTiles(hand) && IsLower(c)
    ensures HandTiles(hand + [c])
  {
    assert forall i :: 0 <= i < |hand| ==> (hand + [c])[i] == hand[i];
  }
}
