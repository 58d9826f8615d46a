/** The topic index by value: a trie is a prefix-closed map from paths to node contents, and
    what it means is the flat table of its non-empty entries. */
module TrieContents {
  import opened Levels

  datatype Option<+T> = None | Some(value: T)

  datatype Subscription = Subscription(
    filter: string, identifier: int, identifiers: Option<map<string, int>>, qos: nat, noLocal: bool)

  datatype Node = Node(
    subs: map<string, Subscription>,                // by client id
    shared: map<string, map<string, Subscription>>, // by share group, then client id
    inline: map<int, Subscription>,                 // by inline identifier
    retainPath: string)

  const EMPTY_NODE: Node := Node(map[], map[], map[], "")

  type Trie = map<Path, Node>

  function Parent(p: Path): Path
    requires p != []
  {
    p[..|p| - 1]
  }

  function Last(p: Path): string
    requires p != []
  {
    p[|p| - 1]
  }

  ghost predicate PrefixClosed(t: Trie) {
    [] in t && forall p <- t :: p != [] ==> Parent(p) in t
  }

  ghost predicate HasChild(t: Trie, p: Path) {
    exists q :: q in t && q != [] && Parent(q) == p
  }

  ghost predicate IsSpare(t: Trie, p: Path) {
    p in t && t[p] == EMPTY_NODE && !HasChild(t, p)
  }

  /** No node but the root is kept for nothing. */
  ghost predicate Pruned(t: Trie) { forall p <- t :: p != [] ==> !IsSpare(t, p) }

  /** The flat table a trie stands for. */
  function Flat(t: Trie): Trie { map p | p in t && t[p] != EMPTY_NODE :: t[p] }

  function At(f: Trie, p: Path): Node { if p in f then f[p] else EMPTY_NODE }

  function With(f: Trie, p: Path, n: Node): Trie { if n == EMPTY_NODE then f - {p} else f[p := n] }

  /** `set`: missing nodes along the path are created empty. */
  function Grow(t: Trie, path: Path): Trie
    decreases |path|
  {
    if path == [] then t
    else
      var g := Grow(t, Parent(path));
      if path in g then g else g[path := EMPTY_NODE]
  }

  /** `trim`: spare nodes are removed from `path` upwards, up to the root. */
  ghost function Trim(t: Trie, path: Path): Trie
    decreases |path|
  {
    if path != [] && IsSpare(t, path) then Trim(t - {path}, Parent(path)) else t
  }

  lemma {:induction false} GrowKeeps(t: Trie, path: Path)
    requires PrefixClosed(t)
    ensures PrefixClosed(Grow(t, path)) && path in Grow(t, path)
    ensures forall p <- t :: p in Grow(t, path) && Grow(t, path)[p] == t[p]
    ensures forall p <- Grow(t, path) :: p in t || (p <= path && Grow(t, path)[p] == EMPTY_NODE)
    ensures Flat(Grow(t, path)) == Flat(t)
    decreases |path|
  {
    if path != [] {
      GrowKeeps(t, Parent(path));
    }
  }

  lemma {:induction false} GrowPresent(t: Trie, path: Path)
    requires PrefixClosed(t) && path in t
    ensures Grow(t, path) == t
    decreases |path|
  {
    if path != [] {
      GrowPresent(t, Parent(path));
    }
  }

  lemma {:induction false} PrefixIn(t: Trie, p: Path, q: Path)
    requires PrefixClosed(t) && q in t && p <= q
    ensures p in t
    decreases |q|
  {
    if p != q {
      assert p <= Parent(q);
      PrefixIn(t, p, Parent(q));
    }
  }

  /** Apart from `path`, nothing is spare: what `set` leaves before the new entry is filled. */
  ghost predicate PrunedBut(t: Trie, path: Path) {
    forall p <- t :: p != [] && p != path ==> !IsSpare(t, p)
  }

  lemma {:induction false} GrowPrunedBut(t: Trie, path: Path)
    requires PrefixClosed(t) && Pruned(t)
    ensures PrunedBut(Grow(t, path), path)
    decreases |path|
  {
    if path != [] {
      var g, g' := Grow(t, Parent(path)), Grow(t, path);
      GrowKeeps(t, Parent(path));
      GrowKeeps(t, path);
      GrowPrunedBut(t, Parent(path));
      forall p <- g' | p != [] && p != path ensures !IsSpare(g', p) {
        if p == Parent(path) {
          assert path in g' && Parent(path) == p;
        } else if HasChild(g, p) {
          var q :| q in g && q != [] && Parent(q) == p;
          assert q in g' && q != [] && Parent(q) == p;
        } else {
          assert !IsSpare(g, p);
        }
      }
    }
  }

  lemma FillKeeps(t: Trie, path: Path, n: Node)
    requires PrefixClosed(t) && path in t && PrunedBut(t, path)
    ensures PrefixClosed(t[path := n]) && PrunedBut(t[path := n], path)
    ensures Flat(t[path := n]) == With(Flat(t), path, n)
    ensures n != EMPTY_NODE || path == [] ==> Pruned(t[path := n])
  {
    var t' := t[path := n];
    forall p <- t' | p != [] && p != path ensures !IsSpare(t', p) {
      if HasChild(t, p) {
        var q :| q in t && q != [] && Parent(q) == p;
        assert q in t' && q != [] && Parent(q) == p;
      }
    }
  }

  /** Trimming loses no entry and leaves nothing spare. */
  lemma {:induction false} TrimKeeps(t: Trie, path: Path)
    requires PrefixClosed(t) && PrunedBut(t, path)
    ensures PrefixClosed(Trim(t, path)) && Pruned(Trim(t, path))
    ensures Flat(Trim(t, path)) == Flat(t)
    decreases |path|
  {
    if path != [] && IsSpare(t, path) {
      var t' := t - {path};
      assert PrefixClosed(t') by {
        forall p <- t' | p != [] ensures Parent(p) in t' {
          assert Parent(p) == path ==> HasChild(t, path);
        }
      }
      forall p <- t' | p != [] && p != Parent(path) ensures !IsSpare(t', p) {
        if HasChild(t, p) {
          var q :| q in t && q != [] && Parent(q) == p;
          assert q in t' && q != [] && Parent(q) == p;
        }
      }
      assert Flat(t') == Flat(t);
      TrimKeeps(t', Parent(path));
    }
  }

  /** In a pruned trie a node exists exactly where an entry is stored, at it or below it. */
  lemma {:induction false} PrunedIsExact(t: Trie, p: Path)
    requires PrefixClosed(t) && Pruned(t) && p in t && p != []
    ensures exists q :: q in Flat(t) && p <= q
    decreases t.Keys - (set q | q in t && |q| <= |p|)
  {
    if t[p] != EMPTY_NODE {
      assert p in Flat(t) && p <= p;
    } else {
      assert HasChild(t, p);
      var q :| q in t && q != [] && Parent(q) == p;
      assert |q| == |p| + 1;
      assert q in t.Keys - (set r | r in t && |r| <= |p|);
      PrunedIsExact(t, q);
      var r :| r in Flat(t) && q <= r;
      assert p <= r;
    }
  }
}
