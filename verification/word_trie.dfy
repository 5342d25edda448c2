/** The letter trie (`WordNode`) both word finders are built on. Every node
    has 26 child slots, one per letter 'a'..'z', and may hold a word. The
    nodes live in one sequence, the first being the root, and a child slot
    holds the index of the child (None for Java's null). Alongside the nodes
    the model keeps, as ghost state, the letters that lead to each node. */
module WordTrie {
  import opened Common

  datatype WordNode = WordNode(word: Option<string>, children: seq<Option<nat>>)

  /** A node with no word and no children (`new WordNode()`). */
  const EMPTY_NODE: WordNode := WordNode(None, NO_CHILDREN)

  /** Twenty-six empty child slots. */
  const NO_CHILDREN: seq<Option<nat>> := [
    None, None, None, None, None, None, None, None, None, None, None, None, None,
    None, None, None, None, None, None, None, None, None, None, None, None, None]

  predicate LowerWord(w: string) {
    forall i :: 0 <= i < |w| ==> IsLower(w[i])
  }

  /** `(int)index - 97`: the child slot of a letter. */
  function Slot(c: char): (k: int)
    requires IsLower(c)
    ensures 0 <= k < 26
  {
    c as int - 'a' as int
  }

  /** The letter of child slot `k`. */
  function Letter(k: int): (c: char)
    requires 0 <= k < 26
    ensures IsLower(c) && Slot(c) == k
  {
    ('a' as int + k) as char
  }

  /** Every node has 26 slots, and every child comes after its parent. */
  predicate Linked(nodes: seq<WordNode>) {
    && |nodes| >= 1
    && (forall i :: 0 <= i < |nodes| ==> |nodes[i].children| == 26)
    && (forall i, k :: 0 <= i < |nodes| && 0 <= k < |nodes[i].children| && nodes[i].children[k].Some? ==>
          i < nodes[i].children[k].value < |nodes|)
  }

  /** The nodes, and the letters spelling the path from the root to each. */
  datatype Arena = Arena(nodes: seq<WordNode>, labels: seq<string>)

  const EMPTY: Arena := Arena([EMPTY_NODE], [[]])

  predicate Sized(a: Arena) {
    Linked(a.nodes) && |a.labels| == |a.nodes|
  }

  /** The invariant of a trie built by `addWord`: the path to a child is the
      path to its parent plus the child's letter; a node below the root holds
      nothing but the word its path spells, of two letters or more; the root
      holds at most a one-letter word. */
  predicate ValidArena(a: Arena) {
    && Sized(a)
    && a.labels[0] == []
    && (forall i, k :: 0 <= i < |a.nodes| && 0 <= k < 26 && a.nodes[i].children[k].Some? ==>
          a.labels[a.nodes[i].children[k].value] == a.labels[i] + [Letter(k)])
    && (forall i :: 0 < i < |a.nodes| && a.nodes[i].word.Some? ==>
          a.nodes[i].word.value == a.labels[i] && |a.labels[i]| >= 2)
    && (a.nodes[0].word.Some? ==> |a.nodes[0].word.value| == 1 && LowerWord(a.nodes[0].word.value))
  }

  lemma EmptyValid()
    ensures ValidArena(EMPTY)
  {
  }

  /** The node reached from `n` by following the letters `w[depth..]`, or None
      when a child on the way is missing. */
  function Find(nodes: seq<WordNode>, n: nat, w: string, depth: nat): (r: Option<nat>)
    requires Linked(nodes) && n < |nodes| && depth <= |w| && LowerWord(w)
    ensures r.Some? ==> r.value < |nodes|
    decreases |w| - depth
  {
    if depth == |w| then Some(n)
    else
      match nodes[n].children[Slot(w[depth])]
      case None => None
      case Some(child) => Find(nodes, child, w, depth + 1)
  }

  /** `validWord`: the letter path of `w` exists in the trie (whether or not
      a word ends there). */
  predicate ValidWord(nodes: seq<WordNode>, w: string)
    requires Linked(nodes) && LowerWord(w)
  {
    Find(nodes, 0, w, 0).Some?
  }

  /** The words the trie holds. */
  function StoredWords(nodes: seq<WordNode>): set<string> {
    set i | 0 <= i < |nodes| && nodes[i].word.Some? :: nodes[i].word.value
  }

  // ---------------------------------------------------------------------------
  // Insertion

  /** The trie after `getChildW`, and the child it returned. */
  datatype Grown = Grown(arena: Arena, child: nat)

  /** The trie with a new empty node, at the next index, as the child of `n`
      for `c`. */
  function Adopt(a: Arena, n: nat, c: char): (r: Arena)
    requires Sized(a) && n < |a.nodes| && IsLower(c)
    ensures Sized(r) && |r.nodes| == |a.nodes| + 1
    ensures r.nodes[n].children[Slot(c)] == Some(|a.nodes|)
  {
    Arena(a.nodes[n := WordNode(a.nodes[n].word, a.nodes[n].children[Slot(c) := Some(|a.nodes|)])] + [EMPTY_NODE],
          a.labels + [a.labels[n] + [c]])
  }

  /** `getChildW(c)` on node `n`: the child for `c`, created (empty, with
      the next index) when it is missing. */
  function ChildW(a: Arena, n: nat, c: char): (r: Grown)
    requires Sized(a) && n < |a.nodes| && IsLower(c)
    ensures Sized(r.arena) && n < r.child < |r.arena.nodes|
    ensures r.arena.nodes[n].children[Slot(c)] == Some(r.child)
    ensures |a.nodes| <= |r.arena.nodes|
  {
    match a.nodes[n].children[Slot(c)]
    case Some(child) => Grown(a, child)
    case None => Grown(Adopt(a, n, c), |a.nodes|)
  }

  /** The nodes with `w` stored on node `n`. */
  function SetWord(nodes: seq<WordNode>, n: nat, w: string): (r: seq<WordNode>)
    requires n < |nodes|
    ensures |r| == |nodes|
    ensures forall i :: 0 <= i < |r| ==>
              r[i].children == nodes[i].children && r[i].word == (if i == n then Some(w) else nodes[i].word)
  {
    nodes[n := WordNode(Some(w), nodes[n].children)]
  }

  /** `addWordRecursive(w, depth)` on node `n`. */
  function AddRec(a: Arena, n: nat, w: string, depth: nat): (r: Arena)
    requires Sized(a) && n < |a.nodes| && LowerWord(w) && depth <= |w|
    ensures Sized(r) && |a.nodes| <= |r.nodes|
    decreases |w| - depth
  {
    if |w| == depth then a.(nodes := SetWord(a.nodes, n, w))
    else AddRec(ChildW(a, n, w[depth]).arena, ChildW(a, n, w[depth]).child, w, depth + 1)
  }

  /** `addWord(w)` on the root: a one-letter word is stored on the root
      itself; a longer one goes down its letters. */
  function Insert(a: Arena, w: string): (r: Arena)
    requires Sized(a) && LowerWord(w) && |w| >= 1
    ensures Sized(r) && |a.nodes| <= |r.nodes|
  {
    if |w| == 1 then a.(nodes := SetWord(a.nodes, 0, w))
    else AddRec(ChildW(a, 0, w[0]).arena, ChildW(a, 0, w[0]).child, w, 1)
  }

  /** The trie after inserting `words` in order into an empty one. */
  function Build(words: seq<string>): (r: Arena)
    requires forall i :: 0 <= i < |words| ==> LowerWord(words[i]) && |words[i]| >= 1
    ensures Sized(r)
  {
    if words == [] then EMPTY else Insert(Build(words[..|words| - 1]), words[|words| - 1])
  }

  // ---------------------------------------------------------------------------
  // Properties of insertion

  /** `b` has every node of `a`, each with its children and its word. */
  predicate Extends(a: seq<WordNode>, b: seq<WordNode>)
    requires Linked(a) && Linked(b)
  {
    && |a| <= |b|
    && forall i, k :: 0 <= i < |a| && 0 <= k < 26 && a[i].children[k].Some? ==> b[i].children[k] == a[i].children[k]
  }

  lemma ExtendsTransitive(a: seq<WordNode>, b: seq<WordNode>, c: seq<WordNode>)
    requires Linked(a) && Linked(b) && Linked(c) && Extends(a, b) && Extends(b, c)
    ensures Extends(a, c)
  {
  }

  /** A path that exists stays where it is when the trie grows. */
  lemma {:induction false} FindExtends(a: seq<WordNode>, b: seq<WordNode>, n: nat, w: string, depth: nat)
    requires Linked(a) && Linked(b) && Extends(a, b)
    requires n < |a| && depth <= |w| && LowerWord(w) && Find(a, n, w, depth).Some?
    ensures Find(b, n, w, depth) == Find(a, n, w, depth)
    decreases |w| - depth
  {
    if depth < |w| {
      var child := a[n].children[Slot(w[depth])].value;
      FindExtends(a, b, child, w, depth + 1);
    }
  }

  /** What `Adopt` changes: one new empty node and one new child link. */
  lemma AdoptShape(a: Arena, n: nat, c: char)
    requires Sized(a) && n < |a.nodes| && IsLower(c) && a.nodes[n].children[Slot(c)].None?
    ensures var b := Adopt(a, n, c);
            && Extends(a.nodes, b.nodes)
            && b.labels[|a.nodes|] == a.labels[n] + [c]
            && b.labels[..|a.labels|] == a.labels
            && (forall i :: 0 <= i < |b.nodes| ==> b.nodes[i].word == (if i < |a.nodes| then a.nodes[i].word else None))
            && (forall i, j :: 0 <= i < |b.nodes| && 0 <= j < 26 && (i != n || j != Slot(c)) ==>
                  b.nodes[i].children[j] == if i < |a.nodes| then a.nodes[i].children[j] else None)
  {
    var b := Adopt(a, n, c);
    var m := |a.nodes|;
    assert b.nodes[m] == EMPTY_NODE;
    assert forall i :: 0 <= i < m && i != n ==> b.nodes[i] == a.nodes[i];
    assert b.nodes[n].children == a.nodes[n].children[Slot(c) := Some(m)];
  }

  lemma AdoptProperties(a: Arena, n: nat, c: char)
    requires ValidArena(a) && n < |a.nodes| && IsLower(c) && a.nodes[n].children[Slot(c)].None?
    ensures var b := Adopt(a, n, c);
            && ValidArena(b)
            && Extends(a.nodes, b.nodes)
            && b.labels[|a.nodes|] == a.labels[n] + [c]
            && b.labels[..|a.labels|] == a.labels
            && (forall i :: 0 <= i < |b.nodes| ==> b.nodes[i].word == (if i < |a.nodes| then a.nodes[i].word else None))
  {
    var b := Adopt(a, n, c);
    var m := |a.nodes|;
    var k := Slot(c);
    AdoptShape(a, n, c);
    assert Letter(k) == c;
    assert forall i :: 0 <= i < m ==> b.labels[i] == a.labels[i];
    forall i, j | 0 <= i < |b.nodes| && 0 <= j < 26 && b.nodes[i].children[j].Some?
      ensures b.labels[b.nodes[i].children[j].value] == b.labels[i] + [Letter(j)]
    {
      if i != n || j != k {
        assert b.nodes[i].children[j] == a.nodes[i].children[j];
      }
    }
  }

  lemma ChildWProperties(a: Arena, n: nat, c: char)
    requires ValidArena(a) && n < |a.nodes| && IsLower(c)
    ensures var r := ChildW(a, n, c);
            && ValidArena(r.arena)
            && Extends(a.nodes, r.arena.nodes)
            && r.arena.labels[r.child] == a.labels[n] + [c]
            && r.arena.labels[..|a.labels|] == a.labels
            && (forall i :: 0 <= i < |r.arena.nodes| ==>
                  r.arena.nodes[i].word == (if i < |a.nodes| then a.nodes[i].word else None))
  {
    if a.nodes[n].children[Slot(c)].None? {
      AdoptProperties(a, n, c);
    } else {
      assert Letter(Slot(c)) == c;
    }
  }

  /** Storing a word on the node its path spells keeps the trie valid. */
  lemma StoreProperties(a: Arena, m: nat, w: string)
    requires ValidArena(a) && 0 < m < |a.nodes| && a.labels[m] == w && |w| >= 2
    ensures ValidArena(a.(nodes := SetWord(a.nodes, m, w)))
    ensures Extends(a.nodes, SetWord(a.nodes, m, w))
  {
  }

  lemma {:induction false} AddRecValid(a: Arena, n: nat, w: string, depth: nat)
    requires ValidArena(a) && n < |a.nodes| && LowerWord(w) && 1 <= depth <= |w| && |w| >= 2
    requires a.labels[n] == w[..depth]
    ensures ValidArena(AddRec(a, n, w, depth))
    ensures Extends(a.nodes, AddRec(a, n, w, depth).nodes)
    decreases |w| - depth
  {
    if |w| == depth {
      assert w[..depth] == w;
      StoreProperties(a, n, w);
    } else {
      var g := ChildW(a, n, w[depth]);
      ChildWProperties(a, n, w[depth]);
      assert w[..depth + 1] == w[..depth] + [w[depth]];
      AddRecValid(g.arena, g.child, w, depth + 1);
      ExtendsTransitive(a.nodes, g.arena.nodes, AddRec(a, n, w, depth).nodes);
    }
  }

  lemma {:induction false} AddRecStores(a: Arena, n: nat, w: string, depth: nat)
    requires ValidArena(a) && n < |a.nodes| && LowerWord(w) && 1 <= depth <= |w| && |w| >= 2
    requires a.labels[n] == w[..depth]
    ensures var r := AddRec(a, n, w, depth);
            && Find(r.nodes, n, w, depth).Some?
            && var m := Find(r.nodes, n, w, depth).value;
               && r.nodes[m].word == Some(w)
               && forall i :: 0 <= i < |r.nodes| && i != m ==>
                    r.nodes[i].word == (if i < |a.nodes| then a.nodes[i].word else None)
    decreases |w| - depth
  {
    if depth < |w| {
      var g := ChildW(a, n, w[depth]);
      var r := AddRec(g.arena, g.child, w, depth + 1);
      assert r == AddRec(a, n, w, depth);
      ChildWProperties(a, n, w[depth]);
      assert w[..depth + 1] == w[..depth] + [w[depth]];
      AddRecStores(g.arena, g.child, w, depth + 1);
      AddRecValid(g.arena, g.child, w, depth + 1);
      assert r.nodes[n].children[Slot(w[depth])] == Some(g.child);
      assert Find(r.nodes, n, w, depth) == Find(r.nodes, g.child, w, depth + 1);
    }
  }

  /** Inserting keeps the trie invariant, and only adds nodes and children. */
  lemma InsertValid(a: Arena, w: string)
    requires ValidArena(a) && LowerWord(w) && |w| >= 1
    ensures ValidArena(Insert(a, w))
    ensures Extends(a.nodes, Insert(a, w).nodes)
  {
    if |w| >= 2 {
      var g := ChildW(a, 0, w[0]);
      ChildWProperties(a, 0, w[0]);
      assert w[..1] == [w[0]];
      AddRecValid(g.arena, g.child, w, 1);
      ExtendsTransitive(a.nodes, g.arena.nodes, Insert(a, w).nodes);
    }
  }

  /** After inserting a word of two letters or more, its path leads to a node
      holding it, and no other node's word changes. */
  lemma InsertStores(a: Arena, w: string)
    requires ValidArena(a) && LowerWord(w) && |w| >= 2
    ensures var r := Insert(a, w);
            && Find(r.nodes, 0, w, 0).Some?
            && var m := Find(r.nodes, 0, w, 0).value;
               && r.nodes[m].word == Some(w)
               && forall i :: 0 <= i < |r.nodes| && i != m ==>
                    r.nodes[i].word == (if i < |a.nodes| then a.nodes[i].word else None)
  {
    var r := Insert(a, w);
    var g := ChildW(a, 0, w[0]);
    ChildWProperties(a, 0, w[0]);
    assert w[..1] == [w[0]];
    AddRecStores(g.arena, g.child, w, 1);
    AddRecValid(g.arena, g.child, w, 1);
    assert r.nodes[0].children[Slot(w[0])] == Some(g.child);
  }

  /** Paths only depend on the children of the nodes. */
  lemma {:induction false} FindSameChildren(a: seq<WordNode>, b: seq<WordNode>, n: nat, w: string, depth: nat)
    requires Linked(a) && Linked(b) && |a| == |b| && n < |a| && depth <= |w| && LowerWord(w)
    requires forall i :: 0 <= i < |a| ==> a[i].children == b[i].children
    ensures Find(a, n, w, depth) == Find(b, n, w, depth)
    decreases |w| - depth
  {
    if depth < |w| && a[n].children[Slot(w[depth])].Some? {
      FindSameChildren(a, b, a[n].children[Slot(w[depth])].value, w, depth + 1);
    }
  }

  /** A one-letter word is stored on the root, not on a child: no node is
      created, and the root's previous one-letter word is replaced. */
  lemma OneLetterWordOnRoot(a: Arena, w: string)
    requires ValidArena(a) && LowerWord(w) && |w| == 1
    ensures |Insert(a, w).nodes| == |a.nodes|
    ensures Insert(a, w).nodes[0].word == Some(w)
    ensures forall i :: 0 <= i < |a.nodes| ==> Insert(a, w).nodes[i].children == a.nodes[i].children
    ensures ValidWord(Insert(a, w).nodes, w) == ValidWord(a.nodes, w)
  {
    FindSameChildren(a.nodes, Insert(a, w).nodes, 0, w, 0);
  }

  /** Every prefix of a path that exists is a path that exists. */
  lemma {:induction false} FindPrefix(nodes: seq<WordNode>, n: nat, w: string, depth: nat, j: nat)
    requires Linked(nodes) && n < |nodes| && LowerWord(w) && depth <= j <= |w|
    requires Find(nodes, n, w, depth).Some?
    ensures Find(nodes, n, w[..j], depth).Some?
    decreases |w| - depth
  {
    if depth < j {
      var child := nodes[n].children[Slot(w[depth])].value;
      assert w[..j][depth] == w[depth];
      FindPrefix(nodes, child, w, depth + 1, j);
    }
  }

  /** After inserting `w` (two letters or more), `validWord` accepts every
      prefix of `w`, the empty string included, whether or not a word ends
      there. */
  lemma InsertPrefixesValid(a: Arena, w: string)
    requires ValidArena(a) && LowerWord(w) && |w| >= 2
    ensures forall j :: 0 <= j <= |w| ==> ValidWord(Insert(a, w).nodes, w[..j])
  {
    InsertStores(a, w);
    forall j | 0 <= j <= |w|
      ensures ValidWord(Insert(a, w).nodes, w[..j])
    {
      FindPrefix(Insert(a, w).nodes, 0, w, 0, j);
    }
  }

  /** Following an existing path creates nothing: only the word of the node
      at its end is set. */
  lemma {:induction false} AddRecOnPath(a: Arena, n: nat, w: string, depth: nat)
    requires Sized(a) && n < |a.nodes| && LowerWord(w) && depth <= |w|
    requires Find(a.nodes, n, w, depth).Some?
    ensures var m := Find(a.nodes, n, w, depth).value;
            AddRec(a, n, w, depth) == a.(nodes := SetWord(a.nodes, m, w))
    decreases |w| - depth
  {
    if depth < |w| {
      var child := a.nodes[n].children[Slot(w[depth])].value;
      AddRecOnPath(a, child, w, depth + 1);
    }
  }

  /** Inserting a word twice is the same as inserting it once. */
  lemma InsertIdempotent(a: Arena, w: string)
    requires ValidArena(a) && LowerWord(w) && |w| >= 1
    ensures Insert(Insert(a, w), w) == Insert(a, w)
  {
    var r := Insert(a, w);
    if |w| >= 2 {
      InsertStores(a, w);
      InsertValid(a, w);
      var m := Find(r.nodes, 0, w, 0).value;
      var child := r.nodes[0].children[Slot(w[0])].value;
      AddRecOnPath(r, child, w, 1);
      assert SetWord(r.nodes, m, w) == r.nodes;
    } else {
      assert SetWord(r.nodes, 0, w) == r.nodes;
    }
  }

  /** How many letters of `w[depth..]` the trie already has a path for, from `n`. */
  function Reach(nodes: seq<WordNode>, n: nat, w: string, depth: nat): (k: nat)
    requires Linked(nodes) && n < |nodes| && depth <= |w| && LowerWord(w)
    ensures k <= |w| - depth
    decreases |w| - depth
  {
    if depth == |w| then 0
    else
      match nodes[n].children[Slot(w[depth])]
      case None => 0
      case Some(child) => 1 + Reach(nodes, child, w, depth + 1)
  }

  lemma {:induction false} AddRecGrowth(a: Arena, n: nat, w: string, depth: nat)
    requires Sized(a) && n < |a.nodes| && LowerWord(w) && depth <= |w|
    ensures |AddRec(a, n, w, depth).nodes| == |a.nodes| + (|w| - depth) - Reach(a.nodes, n, w, depth)
    decreases |w| - depth
  {
    if depth < |w| {
      var g := ChildW(a, n, w[depth]);
      AddRecGrowth(g.arena, g.child, w, depth + 1);
      if a.nodes[n].children[Slot(w[depth])].None? {
        assert g.arena.nodes[g.child] == EMPTY_NODE;
        assert Reach(g.arena.nodes, g.child, w, depth + 1) == 0;
      }
    }
  }

  /** Inserting a word of two letters or more creates one node for each
      letter past the longest prefix the trie already has a path for. */
  lemma InsertCreatesMissingNodes(a: Arena, w: string)
    requires Sized(a) && LowerWord(w) && |w| >= 2
    ensures |Insert(a, w).nodes| == |a.nodes| + |w| - Reach(a.nodes, 0, w, 0)
  {
    var g := ChildW(a, 0, w[0]);
    AddRecGrowth(g.arena, g.child, w, 1);
    if a.nodes[0].children[Slot(w[0])].None? {
      assert g.arena.nodes[g.child] == EMPTY_NODE;
      assert Reach(g.arena.nodes, g.child, w, 1) == 0;
    }
  }

  /** The trie holds the inserted word, and every other word it holds was
      already there. */
  lemma InsertStoredWords(a: Arena, w: string)
    requires ValidArena(a) && LowerWord(w) && |w| >= 1
    ensures w in StoredWords(Insert(a, w).nodes)
    ensures StoredWords(Insert(a, w).nodes) <= StoredWords(a.nodes) + {w}
  {
    var r := Insert(a, w);
    if |w| >= 2 {
      InsertStores(a, w);
      var m := Find(r.nodes, 0, w, 0).value;
      assert r.nodes[m].word == Some(w);
      forall x | x in StoredWords(r.nodes)
        ensures x in StoredWords(a.nodes) + {w}
      {
        var i :| 0 <= i < |r.nodes| && r.nodes[i].word.Some? && r.nodes[i].word.value == x;
        if i != m {
          assert a.nodes[i].word == Some(x);
        }
      }
    } else {
      assert r.nodes[0].word == Some(w);
      forall x | x in StoredWords(r.nodes)
        ensures x in StoredWords(a.nodes) + {w}
      {
        var i :| 0 <= i < |r.nodes| && r.nodes[i].word.Some? && r.nodes[i].word.value == x;
        if i != 0 {
          assert a.nodes[i].word == Some(x);
        }
      }
    }
  }

  /** `w` is spelled by a path from the root to a node that holds `w`. */
  predicate PathHolds(nodes: seq<WordNode>, w: string)
    requires Linked(nodes)
  {
    && LowerWord(w)
    && Find(nodes, 0, w, 0).Some?
    && nodes[Find(nodes, 0, w, 0).value].word == Some(w)
  }

  /** The path from a node spelling `w[..depth]` by the letters `w[depth..]`
      ends at the node spelling `w`. */
  lemma {:induction false} FindLabel(a: Arena, n: nat, w: string, depth: nat)
    requires ValidArena(a) && n < |a.nodes| && LowerWord(w) && depth <= |w|
    requires a.labels[n] == w[..depth] && Find(a.nodes, n, w, depth).Some?
    ensures a.labels[Find(a.nodes, n, w, depth).value] == w
    decreases |w| - depth
  {
    if depth < |w| {
      var child := a.nodes[n].children[Slot(w[depth])].value;
      assert Letter(Slot(w[depth])) == w[depth];
      assert w[..depth + 1] == w[..depth] + [w[depth]];
      FindLabel(a, child, w, depth + 1);
    } else {
      assert w[..depth] == w;
    }
  }

  /** Inserting a word keeps every word of two letters or more on its path. */
  lemma InsertKeepsPaths(a: Arena, w: string, x: string)
    requires ValidArena(a) && LowerWord(w) && |w| >= 1
    requires PathHolds(a.nodes, x) && |x| >= 2
    ensures PathHolds(Insert(a, w).nodes, x)
  {
    var r := Insert(a, w);
    InsertValid(a, w);
    FindExtends(a.nodes, r.nodes, 0, x, 0);
    var m := Find(a.nodes, 0, x, 0).value;
    assert m != 0;
    FindLabel(r, 0, x, 0);
    if |w| >= 2 {
      InsertStores(a, w);
    }
    assert r.nodes[m].word.Some?;
  }

  /** The root, after inserting `w`, holds the same word as before unless `w`
      is a one-letter word. */
  lemma InsertKeepsRoot(a: Arena, w: string)
    requires ValidArena(a) && LowerWord(w) && |w| >= 2
    ensures Insert(a, w).nodes[0].word == a.nodes[0].word
  {
    var r := Insert(a, w);
    InsertValid(a, w);
    InsertStores(a, w);
    assert Find(r.nodes, 0, w, 0).value != 0;
  }

  /** A trie built from a word list is valid and holds only words of the list. */
  lemma {:induction false} BuildValid(words: seq<string>)
    requires forall i :: 0 <= i < |words| ==> LowerWord(words[i]) && |words[i]| >= 1
    ensures ValidArena(Build(words))
    ensures forall x :: x in StoredWords(Build(words).nodes) ==> x in words
  {
    if words == [] {
      assert StoredWords(EMPTY.nodes) == {};
    } else {
      var init := words[..|words| - 1];
      var w := words[|words| - 1];
      BuildValid(init);
      InsertValid(Build(init), w);
      InsertStoredWords(Build(init), w);
      forall x | x in StoredWords(Build(words).nodes)
        ensures x in words
      {
        if x != w {
          assert x in init;
        }
      }
    }
  }

  /** Every word of the list of two letters or more is at the end of its path. */
  lemma {:induction false} BuildHoldsLong(words: seq<string>)
    requires forall i :: 0 <= i < |words| ==> LowerWord(words[i]) && |words[i]| >= 1
    ensures forall i :: 0 <= i < |words| && |words[i]| >= 2 ==> PathHolds(Build(words).nodes, words[i])
  {
    if words != [] {
      var init := words[..|words| - 1];
      var w := words[|words| - 1];
      BuildValid(init);
      BuildHoldsLong(init);
      forall i | 0 <= i < |words| && |words[i]| >= 2
        ensures PathHolds(Build(words).nodes, words[i])
      {
        if i < |words| - 1 {
          assert init[i] == words[i];
          InsertKeepsPaths(Build(init), w, words[i]);
        } else {
          InsertStores(Build(init), w);
        }
      }
    }
  }

  /** The root holds the last one-letter word of the list. */
  lemma {:induction false} BuildRootWord(words: seq<string>)
    requires forall i :: 0 <= i < |words| ==> LowerWord(words[i]) && |words[i]| >= 1
    ensures forall i :: 0 <= i < |words| && |words[i]| == 1 && (forall j :: i < j < |words| ==> |words[j]| >= 2) ==>
              Build(words).nodes[0].word == Some(words[i])
  {
    if words != [] {
      var init := words[..|words| - 1];
      var w := words[|words| - 1];
      BuildValid(init);
      BuildRootWord(init);
      forall i | 0 <= i < |words| && |words[i]| == 1 && (forall j :: i < j < |words| ==> |words[j]| >= 2)
        ensures Build(words).nodes[0].word == Some(words[i])
      {
        if i < |words| - 1 {
          assert init[i] == words[i];
          assert forall j :: i < j < |init| ==> init[j] == words[j];
          InsertKeepsRoot(Build(init), w);
        }
      }
    }
  }

  /** A trie built from a word list is valid and holds exactly the words of
      the list: each word of two letters or more at the end of its path, and
      on the root the last one-letter word of the list. */
  lemma BuildProperties(words: seq<string>)
    requires forall i :: 0 <= i < |words| ==> LowerWord(words[i]) && |words[i]| >= 1
    ensures ValidArena(Build(words))
    ensures forall x :: x in StoredWords(Build(words).nodes) ==> x in words
    ensures forall i :: 0 <= i < |words| && |words[i]| >= 2 ==>
              PathHolds(Build(words).nodes, words[i]) && words[i] in StoredWords(Build(words).nodes)
    ensures forall i :: 0 <= i < |words| && |words[i]| == 1 && (forall j :: i < j < |words| ==> |words[j]| >= 2) ==>
              Build(words).nodes[0].word == Some(words[i])
  {
    BuildValid(words);
    BuildHoldsLong(words);
    BuildRootWord(words);
    forall i | 0 <= i < |words| && |words[i]| >= 2
      ensures words[i] in StoredWords(Build(words).nodes)
    {
      var m := Find(Build(words).nodes, 0, words[i], 0).value;
      assert Build(words).nodes[m].word == Some(words[i]);
    }
  }

  // ---------------------------------------------------------------------------
  // The trie as an object

  /** The word finders' `root` and the nodes below it. */
  class WordTree {
    var nodes: seq<WordNode>
    ghost var labels: seq<string>

    ghost predicate Valid()
      reads this
    {
      ValidArena(Arena(nodes, labels))
    }

    /** An empty trie (the dictionary is loaded by `FromWords`). */
    constructor ()
      ensures Valid() && nodes == [EMPTY_NODE]
    {
      nodes := [EMPTY_NODE];
      labels := [[]];
    }

    /** A trie holding `words`, inserted in order (the loading loop of the
        finders' constructors, with the word list given). */
    constructor FromWords(words: seq<string>)
      requires forall i :: 0 <= i < |words| ==> LowerWord(words[i]) && |words[i]| >= 1
      ensures Valid() && Arena(nodes, labels) == Build(words)
    {
      nodes := [EMPTY_NODE];
      labels := [[]];
      new;
      var i := 0;
      while i < |words|
        invariant 0 <= i <= |words|
        invariant Arena(nodes, labels) == Build(words[..i])
        invariant Valid()
      {
        assert words[..i + 1][..i] == words[..i];
        InsertValid(Arena(nodes, labels), words[i]);
        AddWord(words[i]);
        i := i + 1;
      }
      assert words[..|words|] == words;
    }

    /** `getChildW(c)` on node `n`. */
    method GetChildW(n: nat, c: char) returns (child: nat)
      requires Sized(Arena(nodes, labels)) && n < |nodes| && IsLower(c)
      modifies this
      ensures Grown(Arena(nodes, labels), child) == ChildW(old(Arena(nodes, labels)), n, c)
    {
      var k := Slot(c);
      if nodes[n].children[k].None? {
        var m := |nodes|;
        nodes := nodes[n := nodes[n].(children := nodes[n].children[k := Some(m)])] + [EMPTY_NODE];
        labels := labels + [labels[n] + [c]];
        return m;
      }
      return nodes[n].children[k].value;
    }

    /** `addWordRecursive(w, depth)` on node `n`. */
    method AddWordRecursive(n: nat, w: string, depth: nat)
      requires Sized(Arena(nodes, labels)) && n < |nodes| && LowerWord(w) && depth <= |w|
      modifies this
      ensures Arena(nodes, labels) == AddRec(old(Arena(nodes, labels)), n, w, depth)
      decreases |w| - depth
    {
      if |w| == depth {
        nodes := nodes[n := nodes[n].(word := Some(w))];
      } else {
        var child := GetChildW(n, w[depth]);
        AddWordRecursive(child, w, depth + 1);
      }
    }

    /** `addWord(w)` on the root. */
    method AddWord(w: string)
      requires Sized(Arena(nodes, labels)) && LowerWord(w) && |w| >= 1
      modifies this
      ensures Arena(nodes, labels) == Insert(old(Arena(nodes, labels)), w)
    {
      if |w| == 1 {
        nodes := nodes[0 := nodes[0].(word := Some(w))];
      } else {
        var child := GetChildW(0, w[0]);
        AddWordRecursive(child, w, 1);
      }
    }
  }
}
