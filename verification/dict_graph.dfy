/** The dictionary of the newest engine (`DictGraph` and `Edge`): a graph of
    letter edges hanging from a root, in which every added word gets a chain
    of edges of its own. The graph's `edges` list holds every edge ever
    created, so an edge is named here by its position in that list, and an
    update of an edge in place is the replacement of that entry. */
module EdgeGraph {
  import opened Common

  /** An `Edge`: its letter, the positions of the edges that follow it, and
      its two flags. */
  datatype Edge = Edge(letter: char, out: seq<nat>, isTerminal: bool, isLeaf: bool)

  /** The root is the first edge created. */
  const ROOT: nat := 0

  /** The root's letter, `'\0'`. */
  const NUL: char := 0 as char

  /** Every out-edge is a later entry of the list, and the list is not empty. */
  predicate Linked(edges: seq<Edge>) {
    |edges| >= 1 &&
    forall i, k :: 0 <= i < |edges| && 0 <= k < |edges[i].out| ==> i < edges[i].out[k] < |edges|
  }

  /** Entries `at .. at + |w| - 1` spell `w`: one edge per letter, each leading
      only to the next, only the last one terminal, none a leaf. */
  predicate ChainAt(edges: seq<Edge>, at: nat, w: string) {
    1 <= at && |w| >= 1 && at + |w| <= |edges| &&
    forall k :: 0 <= k < |w| ==>
      edges[at + k] == Edge(w[k], if k + 1 < |w| then [at + k + 1] else [], k + 1 == |w|, false)
  }

  /** The graph of the word list `words`: the root leads to one chain per word,
      in the order the words were added, and no edge is a leaf. */
  predicate Holds(edges: seq<Edge>, words: seq<string>) {
    Linked(edges) &&
    edges[ROOT].letter == NUL && !edges[ROOT].isTerminal &&
    (forall i :: 0 <= i < |edges| ==> !edges[i].isLeaf) &&
    |edges[ROOT].out| == |words| &&
    forall i :: 0 <= i < |words| ==> ChainAt(edges, edges[ROOT].out[i], words[i])
  }

  /** The first of the edges `out` that carries `c`. */
  function FirstOut(edges: seq<Edge>, out: seq<nat>, c: char): (r: Option<nat>)
    ensures r.Some? ==> r.value in out && r.value < |edges| && edges[r.value].letter == c
  {
    if out == [] then None
    else if out[0] < |edges| && edges[out[0]].letter == c then Some(out[0])
    else FirstOut(edges, out[1..], c)
  }

  /** There is no first edge with `c` exactly when no edge carries `c`. */
  lemma {:induction false} FirstOutNone(edges: seq<Edge>, out: seq<nat>, c: char)
    requires forall k :: 0 <= k < |out| ==> out[k] < |edges|
    ensures FirstOut(edges, out, c).None? <==> forall k :: 0 <= k < |out| ==> edges[out[k]].letter != c
  {
    if out != [] && edges[out[0]].letter != c {
      FirstOutNone(edges, out[1..], c);
      assert forall k :: 1 <= k < |out| ==> out[k] == out[1..][k - 1];
    }
  }

  /** The edge found carries `c`, and no earlier edge does. */
  lemma {:induction false} FirstOutSome(edges: seq<Edge>, out: seq<nat>, c: char)
    requires forall k :: 0 <= k < |out| ==> out[k] < |edges|
    ensures FirstOut(edges, out, c).Some? ==>
              exists k :: 0 <= k < |out| && out[k] == FirstOut(edges, out, c).value && edges[out[k]].letter == c &&
                          forall j :: 0 <= j < k ==> edges[out[j]].letter != c
  {
    if out != [] && edges[out[0]].letter != c && FirstOut(edges, out, c).Some? {
      var rest := out[1..];
      FirstOutSome(edges, rest, c);
      var k :| 0 <= k < |rest| && rest[k] == FirstOut(edges, rest, c).value && edges[rest[k]].letter == c &&
               forall j :: 0 <= j < k ==> edges[rest[j]].letter != c;
      assert out[k + 1] == rest[k];
      assert forall j :: 1 <= j < k + 1 ==> out[j] == rest[j - 1];
    }
  }

  /** Following out-edges from `e`, one per letter of `letters`, each carrying
      that letter, can end at `t`. */
  ghost predicate Leads(edges: seq<Edge>, e: nat, letters: string, t: nat)
    decreases |letters|
  {
    if letters == [] then e == t
    else
      e < |edges| &&
      exists x :: x in edges[e].out && x < |edges| && edges[x].letter == letters[0] && Leads(edges, x, letters[1..], t)
  }

  /** Entry `at + k` of a chain. */
  lemma ChainEdge(edges: seq<Edge>, at: nat, w: string, k: nat)
    requires ChainAt(edges, at, w) && k < |w|
    ensures at + k < |edges|
    ensures edges[at + k] == Edge(w[k], if k + 1 < |w| then [at + k + 1] else [], k + 1 == |w|, false)
  {
  }

  /** Some edge of `out` carries the first letter and leads on from there. */
  ghost predicate LeadsVia(edges: seq<Edge>, out: seq<nat>, letters: string, t: nat) {
    letters != [] &&
    exists x :: x in out && x < |edges| && edges[x].letter == letters[0] && Leads(edges, x, letters[1..], t)
  }

  /** A walk from `e` spelling `letters` can end at a terminal edge. */
  ghost predicate Ends(edges: seq<Edge>, e: nat, letters: string) {
    exists t: nat :: t < |edges| && edges[t].isTerminal && Leads(edges, e, letters, t)
  }

  /** The same, through one of the edges `out`. */
  ghost predicate EndsVia(edges: seq<Edge>, out: seq<nat>, letters: string) {
    exists t: nat :: t < |edges| && edges[t].isTerminal && LeadsVia(edges, out, letters, t)
  }

  /** One step more at the front of a walk. */
  lemma EndsVia1(edges: seq<Edge>, out: seq<nat>, x: nat, c: char, rest: string)
    requires x in out && x < |edges| && edges[x].letter == c && Ends(edges, x, rest)
    ensures EndsVia(edges, out, [c] + rest)
  {
    var t: nat :| t < |edges| && edges[t].isTerminal && Leads(edges, x, rest, t);
    assert ([c] + rest)[1..] == rest;
    assert LeadsVia(edges, out, [c] + rest, t);
  }

  /** A walk through one of the out-edges of `e` is a walk from `e`. */
  lemma EndsViaOut(edges: seq<Edge>, e: nat, letters: string)
    requires e < |edges| && EndsVia(edges, edges[e].out, letters)
    ensures Ends(edges, e, letters)
  {
    var t: nat :| t < |edges| && edges[t].isTerminal && LeadsVia(edges, edges[e].out, letters, t);
    assert Leads(edges, e, letters, t);
  }

  /** A walk through some of the edges is a walk through all of them. */
  lemma EndsViaMore(edges: seq<Edge>, x: nat, out: seq<nat>, letters: string)
    requires EndsVia(edges, out, letters)
    ensures EndsVia(edges, [x] + out, letters)
  {
    var t: nat :| t < |edges| && edges[t].isTerminal && LeadsVia(edges, out, letters, t);
    var y :| y in out && y < |edges| && edges[y].letter == letters[0] && Leads(edges, y, letters[1..], t);
    assert y in [x] + out;
    assert LeadsVia(edges, [x] + out, letters, t);
  }

  /** A walk from inside a chain to a terminal edge reads the rest of the
      chain's word. */
  lemma {:induction false} ChainLeadsOnlyOn(edges: seq<Edge>, at: nat, w: string, j: nat, rest: string, t: nat)
    requires ChainAt(edges, at, w) && j < |w|
    requires Leads(edges, at + j, rest, t) && t < |edges| && edges[t].isTerminal
    ensures rest == w[j + 1..]
    decreases |rest|
  {
    ChainEdge(edges, at, w, j);
    if rest == [] {
      assert t == at + j && j + 1 == |w|;
    } else {
      var x :| x in edges[at + j].out && x < |edges| && edges[x].letter == rest[0] && Leads(edges, x, rest[1..], t);
      assert x == at + j + 1 && j + 1 < |w|;
      ChainEdge(edges, at, w, j + 1);
      ChainLeadsOnlyOn(edges, at, w, j + 1, rest[1..], t);
      assert rest == [w[j + 1]] + w[j + 2..];
    }
  }

  /** From inside a chain, the rest of its word leads to the chain's terminal
      edge. */
  lemma {:induction false} ChainLeadsOn(edges: seq<Edge>, at: nat, w: string, j: nat)
    requires ChainAt(edges, at, w) && j < |w|
    ensures Leads(edges, at + j, w[j + 1..], at + |w| - 1)
    decreases |w| - j
  {
    if j + 1 < |w| {
      ChainLeadsOn(edges, at, w, j + 1);
      var x := at + j + 1;
      ChainEdge(edges, at, w, j);
      ChainEdge(edges, at, w, j + 1);
      assert x in edges[at + j].out && edges[x].letter == w[j + 1..][0];
      assert w[j + 1..][1..] == w[j + 2..];
    }
  }

  /** A chain under the root spells its word from the root to its terminal
      edge. */
  lemma ChainLeadsFromRoot(edges: seq<Edge>, at: nat, w: string)
    requires ChainAt(edges, at, w) && |edges| >= 1 && at in edges[ROOT].out
    ensures edges[at + |w| - 1].isTerminal && Leads(edges, ROOT, w, at + |w| - 1)
  {
    var last := |w| - 1;
    ChainLeadsOn(edges, at, w, 0);
    ChainEdge(edges, at, w, 0);
    ChainEdge(edges, at, w, last);
    assert Leads(edges, at, w[1..], at + last);
  }

  /** Every word added can be spelled from the root to a terminal edge. */
  lemma WordLeadsFromRoot(edges: seq<Edge>, words: seq<string>, i: nat)
    requires Holds(edges, words) && i < |words|
    ensures exists t: nat :: t < |edges| && edges[t].isTerminal && Leads(edges, ROOT, words[i], t)
  {
    var at := edges[ROOT].out[i];
    ChainLeadsFromRoot(edges, at, words[i]);
  }

  /** Only the words added can be spelled from the root to a terminal edge. */
  lemma LeadsFromRootIsWord(edges: seq<Edge>, words: seq<string>, letters: string, t: nat)
    requires Holds(edges, words)
    requires t < |edges| && edges[t].isTerminal && Leads(edges, ROOT, letters, t)
    ensures letters in words
  {
    var root := edges[ROOT];
    assert letters != [];
    var x :| x in root.out && x < |edges| && edges[x].letter == letters[0] && Leads(edges, x, letters[1..], t);
    var i :| 0 <= i < |root.out| && root.out[i] == x;
    var w := words[i];
    assert ChainAt(edges, x, w);
    ChainEdge(edges, x, w, 0);
    ChainLeadsOnlyOn(edges, x, w, 0, letters[1..], t);
    assert letters == [letters[0]] + letters[1..];
    assert letters == w;
  }

  /** The chain `AddWord` creates for `w` at entry `n` of the list. */
  function ChainOf(w: string, n: nat): (r: seq<Edge>)
    ensures |r| == |w|
    ensures forall k :: 0 <= k < |w| ==> r[k] == Edge(w[k], if k + 1 < |w| then [n + k + 1] else [], k + 1 == |w|, false)
    decreases |w|
  {
    if w == [] then []
    else [Edge(w[0], if 1 < |w| then [n + 1] else [], 1 == |w|, false)] + ChainOf(w[1..], n + 1)
  }

  /** The list after `AddWord(w)`. */
  function WithWord(edges: seq<Edge>, w: string): seq<Edge>
    requires |edges| >= 1
  {
    edges[ROOT := edges[ROOT].(out := edges[ROOT].out + [|edges|])] + ChainOf(w, |edges|)
  }

  /** The list of the graph built from `words`. */
  function GraphOf(words: seq<string>): (r: seq<Edge>)
    ensures |r| >= 1
  {
    if words == [] then [Edge(NUL, [], false, false)]
    else WithWord(GraphOf(words[..|words| - 1]), words[|words| - 1])
  }

  /** One more word of `list` adds its chain to the graph. */
  lemma GraphOfNext(list: seq<string>, i: nat)
    requires i < |list|
    ensures list[..i + 1] == list[..i] + [list[i]]
    ensures GraphOf(list[..i + 1]) == WithWord(GraphOf(list[..i]), list[i])
  {
    assert list[..i + 1][..i] == list[..i];
  }

  /** The `DictGraph` class: the list of every edge, the root first. */
  class DictGraph {
    var edges: seq<Edge>
    /** The words added so far, in order. */
    ghost var words: seq<string>

    ghost predicate Valid()
      reads this
    {
      Holds(edges, words)
    }

    /** `DictGraph(file)`: a root, then `AddWord` for every word of the file,
        given here as a list of its (non-empty) words. */
    constructor (list: seq<string>)
      requires forall i :: 0 <= i < |list| ==> |list[i]| >= 1
      ensures Valid() && words == list && edges == GraphOf(list)
    {
      edges := [Edge(NUL, [], false, false)];
      words := [];
      new;
      var i := 0;
      while i < |list|
        invariant 0 <= i <= |list|
        invariant Valid() && words == list[..i] && edges == GraphOf(list[..i])
      {
        AddWord(list[i]);
        GraphOfNext(list, i);
        i := i + 1;
      }
      assert list[..|list|] == list;
    }

    /** `addEdge`: a new edge carrying `c`, added to the out-edges of `start`
        and (as every caller does next) to the list. */
    method AddEdge(start: nat, c: char) returns (end: nat)
      requires start < |edges|
      modifies this
      ensures end == |old(edges)|
      ensures edges == old(edges)[start := old(edges[start]).(out := old(edges[start].out) + [end])] + [Edge(c, [], false, false)]
      ensures words == old(words)
    {
      end := |edges|;
      edges := edges[start := edges[start].(out := edges[start].out + [end])] + [Edge(c, [], false, false)];
    }

    /** `AddWord`: one new edge under the root, then a fresh chain spelling
        `w` whose last edge is terminal. Nothing is shared with earlier
        words, so adding a word twice grows the graph twice. */
    method AddWord(w: string)
      requires Valid() && |w| >= 1
      modifies this
      ensures Valid() && words == old(words) + [w]
      ensures |edges| == |old(edges)| + |w|
      ensures edges[ROOT].out == old(edges[ROOT].out) + [|old(edges)|]
      ensures forall i :: 1 <= i < |old(edges)| ==> edges[i] == old(edges[i])
      ensures ChainAt(edges, |old(edges)|, w)
      ensures edges == WithWord(old(edges), w)
    {
      var n := |edges|;
      ghost var root := edges[ROOT];
      var cur: nat := ROOT;
      for i := -1 to |w|
        invariant i == -1 ==> edges == old(edges)
        invariant 0 <= i ==> |edges| == n + (if i < |w| then i + 1 else |w|)
        invariant 0 <= i ==> edges[ROOT] == root.(out := root.out + [n])
        invariant |edges| >= n && forall k :: 1 <= k < n ==> edges[k] == old(edges[k])
        invariant 0 <= i < |w| ==> cur == n + i
        invariant 0 <= i ==> forall k :: 0 <= k < i && k < |w| ==>
                    edges[n + k] == Edge(w[k], if k + 1 < |w| then [n + k + 1] else [], k + 1 == |w| && i == |w|, false)
        invariant 0 <= i < |w| ==> edges[n + i] == Edge(w[i], [], false, false)
        invariant words == old(words)
      {
        var j := i + 1;
        if i == -1 {
          cur := AddEdge(ROOT, w[0]);
        } else if j == |w| {
          edges := edges[cur := edges[cur].(isTerminal := true)];
        } else {
          cur := AddEdge(cur, w[j]);
        }
      }
      words := words + [w];
      AddedWordHolds(old(edges), old(words), edges, w);
      AddedWordIs(old(edges), edges, w);
    }

    /** `getEdge`: the first out-edge of `start` that carries `c`, if any. */
    method GetEdge(start: nat, c: char) returns (r: Option<nat>)
      requires Linked(edges) && start < |edges|
      ensures r == FirstOut(edges, edges[start].out, c)
    {
      var out := edges[start].out;
      for k := 0 to |out|
        invariant FirstOut(edges, out, c) == FirstOut(edges, out[k..], c)
      {
        assert out[k..][1..] == out[k + 1..];
        if edges[out[k]].letter == c {
          return Some(out[k]);
        }
      }
      return None;
    }
  }

  /** The state `AddWord` leaves is the graph of the longer word list. */
  lemma AddedWordHolds(edges0: seq<Edge>, words0: seq<string>, edges: seq<Edge>, w: string)
    requires Holds(edges0, words0) && |w| >= 1
    requires |edges| == |edges0| + |w|
    requires edges[ROOT] == edges0[ROOT].(out := edges0[ROOT].out + [|edges0|])
    requires forall i :: 1 <= i < |edges0| ==> edges[i] == edges0[i]
    requires ChainAt(edges, |edges0|, w)
    ensures Holds(edges, words0 + [w])
  {
    var n := |edges0|;
    var words := words0 + [w];
    forall i | 0 <= i < |edges| && i >= n
      ensures forall k :: 0 <= k < |edges[i].out| ==> i < edges[i].out[k] < |edges|
      ensures !edges[i].isLeaf
    {
      var k := i - n;
      assert edges[n + k] == Edge(w[k], if k + 1 < |w| then [n + k + 1] else [], k + 1 == |w|, false);
    }
    forall i | 0 <= i < |words|
      ensures ChainAt(edges, edges[ROOT].out[i], words[i])
    {
      if i < |words0| {
        var at := edges0[ROOT].out[i];
        assert ChainAt(edges0, at, words0[i]);
        var w := words0[i];
        forall k | 0 <= k < |w|
          ensures edges[at + k] == Edge(w[k], if k + 1 < |w| then [at + k + 1] else [], k + 1 == |w|, false)
        {
          assert edges0[at + k] == Edge(w[k], if k + 1 < |w| then [at + k + 1] else [], k + 1 == |w|, false);
        }
      }
    }
  }

  /** The shape `AddWord` promises is exactly the list `WithWord` builds. */
  lemma AddedWordIs(edges0: seq<Edge>, edges: seq<Edge>, w: string)
    requires |edges0| >= 1
    requires |edges| == |edges0| + |w|
    requires edges[ROOT] == edges0[ROOT].(out := edges0[ROOT].out + [|edges0|])
    requires forall i :: 1 <= i < |edges0| ==> edges[i] == edges0[i]
    requires ChainAt(edges, |edges0|, w)
    ensures edges == WithWord(edges0, w)
  {
    var r := WithWord(edges0, w);
    var n := |edges0|;
    var chain := ChainOf(w, n);
    forall i | 0 <= i < |edges|
      ensures edges[i] == r[i]
    {
      if i >= n {
        var k := i - n;
        assert edges[n + k] == Edge(w[k], if k + 1 < |w| then [n + k + 1] else [], k + 1 == |w|, false);
        assert r[i] == chain[k];
      }
    }
  }

  /** `WithWord` has the shape `AddWord` promises. */
  lemma WithWordShape(edges0: seq<Edge>, w: string)
    requires |edges0| >= 1 && |w| >= 1
    ensures var edges := WithWord(edges0, w);
            |edges| == |edges0| + |w| &&
            edges[ROOT] == edges0[ROOT].(out := edges0[ROOT].out + [|edges0|]) &&
            (forall i :: 1 <= i < |edges0| ==> edges[i] == edges0[i]) &&
            ChainAt(edges, |edges0|, w)
  {
    var edges := WithWord(edges0, w);
    var n := |edges0|;
    var chain := ChainOf(w, n);
    forall k | 0 <= k < |w|
      ensures edges[n + k] == Edge(w[k], if k + 1 < |w| then [n + k + 1] else [], k + 1 == |w|, false)
    {
      assert edges[n + k] == chain[k];
    }
  }

  /** The graph of a list of non-empty words keeps the graph invariant for
      exactly those words. */
  lemma {:induction false} GraphOfHolds(words: seq<string>)
    requires forall i :: 0 <= i < |words| ==> |words[i]| >= 1
    ensures Holds(GraphOf(words), words)
  {
    if words != [] {
      var init := words[..|words| - 1];
      var w := words[|words| - 1];
      assert forall i :: 0 <= i < |init| ==> init[i] == words[i];
      GraphOfHolds(init);
      var edges0 := GraphOf(init);
      var edges := WithWord(edges0, w);
      assert GraphOf(words) == edges;
      WithWordShape(edges0, w);
      AddedWordHolds(edges0, init, edges, w);
      assert init + [w] == words;
    }
  }
}
