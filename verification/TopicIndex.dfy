/** The mutable, parent-linked topic trie (topics.go), proved against `TrieContents`. */
module TopicIndex {
  import opened Levels
  import opened TrieContents

  class Particle {
    var key: string
    var parent: Particle?
    var particles: map<string, Particle>
    var subscriptions: map<string, Subscription>
    var shared: map<string, map<string, Subscription>>
    var inlineSubscriptions: map<int, Subscription>
    var retainPath: string
    ghost const path: Path    // where in the trie this particle was created

    constructor (key: string, parent: Particle?, ghost path: Path)
      ensures this.key == key && this.parent == parent && this.path == path && particles == map[]
      ensures Stores(this, EMPTY_NODE)
    {
      this.key, this.parent, this.path := key, parent, path;
      particles, subscriptions, shared, inlineSubscriptions, retainPath := map[], map[], map[], map[], "";
    }

    /** The number of shared subscriptions over all groups. */
    method SharedLen() returns (n: nat)
      requires forall g <- shared :: shared[g] != map[]
      ensures n == 0 <==> shared == map[]
    {
      n := 0;
      var left := shared.Keys;
      while left != {}
        invariant left <= shared.Keys
        invariant n == 0 <==> left == shared.Keys
      {
        var g :| g in left;
        assert |shared[g]| > 0;
        n := n + |shared[g]|;
        left := left - {g};
      }
    }
  }

  // ---------------------------------------------------------------- the shape of the heap

  /** The particle at each path of the trie, what the trie holds, and all its particles. */
  datatype Shape = Shape(nodes: map<Path, Particle>, contents: Trie, repr: set<Particle>)

  ghost predicate Stores(n: Particle, node: Node)
    reads n
  {
    && n.subscriptions == node.subs && n.shared == node.shared
    && n.inlineSubscriptions == node.inline && n.retainPath == node.retainPath
  }

  /** The particle at `p` and its parent point at each other under the last level of `p`. */
  ghost predicate LinkedUp(sh: Shape, p: Path)
    reads sh.repr
  {
    && p in sh.nodes && sh.nodes[p] in sh.repr
    && (if p == [] then sh.nodes[p].parent == null
        else
          && Parent(p) in sh.nodes && sh.nodes[Parent(p)] in sh.repr
          && sh.nodes[p].parent == sh.nodes[Parent(p)] && sh.nodes[p].key == Last(p)
          && Last(p) in sh.nodes[Parent(p)].particles && sh.nodes[Parent(p)].particles[Last(p)] == sh.nodes[p])
  }

  ghost predicate LinkedDown(sh: Shape, p: Path)
    reads sh.repr
  {
    && p in sh.nodes && sh.nodes[p] in sh.repr
    && forall k <- sh.nodes[p].particles :: p + [k] in sh.nodes && sh.nodes[p + [k]] == sh.nodes[p].particles[k]
  }

  ghost predicate AllUp(sh: Shape)
    reads sh.repr
  {
    forall p {:trigger LinkedUp(sh, p)} | p in sh.nodes :: LinkedUp(sh, p)
  }

  ghost predicate AllDown(sh: Shape)
    reads sh.repr
  {
    forall p {:trigger LinkedDown(sh, p)} | p in sh.nodes :: LinkedDown(sh, p)
  }

  /** Every path leads to its own particle, which holds the contents there. */
  ghost predicate Placed(sh: Shape)
    reads sh.repr
  {
    && [] in sh.nodes && sh.contents.Keys == sh.nodes.Keys
    && (forall p {:trigger sh.nodes[p]} | p in sh.nodes :: sh.nodes[p] in sh.repr && sh.nodes[p].path == p)
    && (forall p {:trigger sh.contents[p]} | p in sh.nodes :: Stores(sh.nodes[p], sh.contents[p]))
  }

  ghost predicate WellLinked(sh: Shape)
    reads sh.repr
  {
    Placed(sh) && AllUp(sh) && AllDown(sh)
  }

  lemma LinksMirrorContents(sh: Shape)
    requires WellLinked(sh)
    ensures PrefixClosed(sh.contents)
    ensures forall p {:trigger HasChild(sh.contents, p)} | p in sh.nodes ::
              HasChild(sh.contents, p) <==> sh.nodes[p].particles != map[]
  {
    forall p <- sh.contents | p != [] ensures Parent(p) in sh.contents { assert LinkedUp(sh, p); }
    forall p {:trigger HasChild(sh.contents, p)} | p in sh.nodes
      ensures HasChild(sh.contents, p) <==> sh.nodes[p].particles != map[]
    {
      assert LinkedDown(sh, p);
      if HasChild(sh.contents, p) {
        var q :| q in sh.contents && q != [] && Parent(q) == p;
        assert LinkedUp(sh, q);
      }
      if sh.nodes[p].particles != map[] {
        var k :| k in sh.nodes[p].particles;
        assert p + [k] in sh.contents && Parent(p + [k]) == p;
      }
    }
  }

  // ---------------------------------------------------------------- adding a child

  ghost function WithChild(sh: Shape, child: Path, c: Particle): Shape {
    Shape(sh.nodes[child := c], sh.contents[child := EMPTY_NODE], sh.repr + {c})
  }

  twostate predicate ChildAdded(sh: Shape, new c: Particle)
    reads c, sh.repr
  {
    var child := c.path;
    && child != [] && child !in sh.nodes && Parent(child) in sh.nodes && sh.nodes[Parent(child)] in sh.repr
    && c !in sh.repr && c.key == Last(child) && c.particles == map[] && Stores(c, EMPTY_NODE)
    && var n := sh.nodes[Parent(child)];
    && c.parent == n && n.particles == old(n.particles)[Last(child) := c]
    && n.parent == old(n.parent) && n.key == old(n.key)
    && n.subscriptions == old(n.subscriptions) && n.shared == old(n.shared)
    && n.inlineSubscriptions == old(n.inlineSubscriptions) && n.retainPath == old(n.retainPath)
    && (forall o <- sh.repr :: o != n ==> unchanged(o))
  }

  twostate lemma AddedUp(sh: Shape, new c: Particle)
    requires old(WellLinked(sh)) && ChildAdded(sh, c)
    ensures AllUp(WithChild(sh, c.path, c))
  {
    var child := c.path;
    var sh' := WithChild(sh, child, c);
    forall p {:trigger LinkedUp(sh', p)} | p in sh'.nodes ensures LinkedUp(sh', p) {
      if p != child { assert old(LinkedUp(sh, p)); }
    }
  }

  twostate lemma AddedDown(sh: Shape, new c: Particle)
    requires old(WellLinked(sh)) && ChildAdded(sh, c)
    ensures AllDown(WithChild(sh, c.path, c))
  {
    var child := c.path;
    var sh' := WithChild(sh, child, c);
    forall p {:trigger LinkedDown(sh', p)} | p in sh'.nodes ensures LinkedDown(sh', p) {
      if p != child {
        assert old(LinkedDown(sh, p));
        assert child == Parent(child) + [Last(child)];
        forall k <- sh'.nodes[p].particles ensures p + [k] in sh'.nodes && sh'.nodes[p + [k]] == sh'.nodes[p].particles[k] {
          assert Parent(p + [k]) == p && Last(p + [k]) == k;
        }
      }
    }
  }

  twostate lemma AddedPlaced(sh: Shape, new c: Particle)
    requires old(WellLinked(sh)) && ChildAdded(sh, c)
    ensures Placed(WithChild(sh, c.path, c))
  {
  }

  // ---------------------------------------------------------------- unlinking a leaf

  ghost function WithoutLeaf(sh: Shape, path: Path): Shape {
    Shape(sh.nodes - {path}, sh.contents - {path}, sh.repr)
  }

  /** A path of a trie; two-state lemmas take both as one argument. */
  datatype Spot = Spot(sh: Shape, path: Path)

  twostate predicate LeafRemoved(at: Spot)
    reads at.sh.repr
  {
    var sh, path := at.sh, at.path;
    && path != [] && path in sh.nodes && sh.nodes[path] in sh.repr && old(sh.nodes[path].particles) == map[]
    && Parent(path) in sh.nodes && sh.nodes[Parent(path)] in sh.repr
    && var parent := sh.nodes[Parent(path)];
    && parent.particles == old(parent.particles) - {Last(path)} && parent.parent == old(parent.parent) && parent.key == old(parent.key)
    && parent.subscriptions == old(parent.subscriptions) && parent.shared == old(parent.shared)
    && parent.inlineSubscriptions == old(parent.inlineSubscriptions) && parent.retainPath == old(parent.retainPath)
    && (forall o <- sh.repr :: o != parent ==> unchanged(o))
  }

  twostate lemma RemovedUp(at: Spot)
    requires old(WellLinked(at.sh)) && LeafRemoved(at)
    ensures AllUp(WithoutLeaf(at.sh, at.path))
  {
    var sh, path, sh' := at.sh, at.path, WithoutLeaf(at.sh, at.path);
    assert path == Parent(path) + [Last(path)];
    assert old(LinkedUp(sh, path));
    forall p {:trigger LinkedUp(sh', p)} | p in sh'.nodes ensures LinkedUp(sh', p) {
      assert old(LinkedUp(sh, p));
      assert p != [] ==> p == Parent(p) + [Last(p)];
    }
  }

  twostate lemma RemovedDown(at: Spot)
    requires old(WellLinked(at.sh)) && LeafRemoved(at)
    ensures AllDown(WithoutLeaf(at.sh, at.path))
  {
    var sh, sh' := at.sh, WithoutLeaf(at.sh, at.path);
    forall p {:trigger LinkedDown(sh', p)} | p in sh'.nodes ensures LinkedDown(sh', p) {
      assert old(LinkedDown(sh, p));
      forall k <- sh'.nodes[p].particles ensures p + [k] in sh'.nodes && sh'.nodes[p + [k]] == sh'.nodes[p].particles[k] {
        assert Parent(p + [k]) == p && Last(p + [k]) == k;
      }
    }
  }

  twostate lemma RemovedPlaced(at: Spot)
    requires old(WellLinked(at.sh)) && LeafRemoved(at)
    ensures Placed(WithoutLeaf(at.sh, at.path))
  {
  }

  // ---------------------------------------------------------------- changing what a node holds

  ghost function Data(n: Particle): Node
    reads n
  {
    Node(n.subscriptions, n.shared, n.inlineSubscriptions, n.retainPath)
  }

  ghost function WithNode(sh: Shape, path: Path, node: Node): Shape {
    sh.(contents := sh.contents[path := node])
  }

  twostate lemma DataChanged(at: Spot)
    requires old(WellLinked(at.sh)) && at.path in at.sh.nodes && at.sh.nodes[at.path] in at.sh.repr
    requires var n := at.sh.nodes[at.path];
             n.particles == old(n.particles) && n.parent == old(n.parent) && n.key == old(n.key)
    requires forall o <- at.sh.repr :: o != at.sh.nodes[at.path] ==> unchanged(o)
    ensures WellLinked(WithNode(at.sh, at.path, Data(at.sh.nodes[at.path])))
  {
    var sh, sh' := at.sh, WithNode(at.sh, at.path, Data(at.sh.nodes[at.path]));
    forall p {:trigger LinkedUp(sh', p)} | p in sh'.nodes ensures LinkedUp(sh', p) { assert old(LinkedUp(sh, p)); }
    forall p {:trigger LinkedDown(sh', p)} | p in sh'.nodes ensures LinkedDown(sh', p) { assert old(LinkedDown(sh, p)); }
    forall p {:trigger sh'.contents[p]} | p in sh'.nodes ensures Stores(sh'.nodes[p], sh'.contents[p]) {
      assert old(Stores(sh.nodes[p], sh.contents[p]));
    }
  }
}
