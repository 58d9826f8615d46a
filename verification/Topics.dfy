/** The operations of the topic index. Whatever the history, the trie stands for a flat table
    of entries in which each operation changes only the entry it addresses. */
module Topics {
  import opened Levels
  import opened TrieContents
  import opened TopicTable
  import opened TopicIndex

  /** Level `d + i` of `s` is step `i` of the path from level `d`. */
  lemma WalkStep(s: string, d: nat, i: nat, path: Path)
    requires path == PathFrom(s, d) && i < |path|
    ensures Isolate(s, d + i).0 == path[i] && (Isolate(s, d + i).1 <==> i + 1 < |path|)
  {
  }

  lemma PrefixStep(path: Path, i: nat)
    requires i < |path|
    ensures path[..i + 1] == path[..i] + [path[i]] && Parent(path[..i + 1]) == path[..i]
  {
  }

  class TopicsIndex {
    var root: Particle
    var retained: map<string, Message>
    ghost var sh: Shape

    ghost predicate Linked()
      reads this, sh.repr
    {
      WellLinked(sh) && sh.nodes[[]] == root
    }

    ghost predicate Valid()
      reads this, sh.repr
    {
      Linked() && Pruned(sh.contents) && Coherent(Table(), retained)
    }

    /** The flat table this index stands for. */
    ghost function Table(): Trie
      reads this
    {
      Flat(sh.contents)
    }

    constructor ()
      ensures Valid() && fresh(sh.repr) && Table() == map[] && retained == map[]
    {
      root := new Particle("", null, []);
      retained := map[];
      new;
      sh := Shape(map[[] := root], map[[] := EMPTY_NODE], {root});
    }

    method AddChild(n: Particle, key: string, ghost path: Path) returns (c: Particle)
      requires Linked() && path in sh.nodes && sh.nodes[path] == n && key !in n.particles
      modifies this`sh, n`particles
      ensures Linked() && fresh(c)
      ensures sh == WithChild(old(sh), path + [key], c)
    {
      ghost var child := path + [key];
      assert Parent(child) == path && Last(child) == key;
      assert child in sh.nodes ==> LinkedUp(sh, child);
      c := new Particle(key, n, child);
      n.particles := n.particles[key := c];
      ghost var sh0 := sh;
      sh := WithChild(sh, child, c);
      AddedUp(sh0, c);
      AddedDown(sh0, c);
      AddedPlaced(sh0, c);
    }

    /** The child of `n` under `key`, created if there is none. */
    method ChildOf(n: Particle, key: string, ghost path: Path) returns (c: Particle)
      requires Linked() && path in sh.nodes && sh.nodes[path] == n
      modifies this`sh, n`particles
      ensures Linked() && old(sh).repr <= sh.repr && forall o <- sh.repr :: o in old(sh).repr || fresh(o)
      ensures path + [key] in sh.nodes && c == sh.nodes[path + [key]]
      ensures sh.contents == if path + [key] in old(sh).contents then old(sh).contents
                             else old(sh).contents[path + [key] := EMPTY_NODE]
    {
      assert LinkedDown(sh, path);
      assert Parent(path + [key]) == path && Last(path + [key]) == key;
      assert path + [key] in sh.nodes ==> LinkedUp(sh, path + [key]);
      if key !in n.particles {
        c := AddChild(n, key, path);
      } else {
        c := n.particles[key];
      }
    }

    /** Creates a topic address from level `d` on and returns its final particle. */
    method Set(topic: string, d: nat) returns (n: Particle)
      requires Linked()
      modifies this`sh, sh.repr`particles
      ensures Linked() && old(sh).repr <= sh.repr && forall o <- sh.repr :: o in old(sh).repr || fresh(o)
      ensures retained == old(retained)
      ensures sh.contents == Grow(old(sh).contents, PathFrom(topic, d))
      ensures PathFrom(topic, d) in sh.nodes && n == sh.nodes[PathFrom(topic, d)]
    {
      ghost var path := PathFrom(topic, d);
      var hasNext, i := true, 0;
      n := root;
      ghost var at: Path := [];
      while hasNext
        invariant Linked() && old(sh).repr <= sh.repr && forall o <- sh.repr :: o in old(sh).repr || fresh(o)
        invariant i <= |path| && (hasNext <==> i < |path|) && at == path[..i]
        invariant at in sh.nodes && n == sh.nodes[at]
        invariant sh.contents == Grow(old(sh).contents, at)
        decreases |path| - i
      {
        WalkStep(topic, d, i, path);
        PrefixStep(path, i);
        var key;
        key, hasNext := IsolateParticle(topic, d + i);
        n := ChildOf(n, key, at);
        at, i := at + [key], i + 1;
      }
      assert path[..|path|] == path;
    }

    /** The particle at a topic address from level `d` on, if there is one. */
    method Seek(filter: string, d: nat) returns (n: Particle?)
      requires Linked()
      ensures n != null <==> PathFrom(filter, d) in sh.nodes
      ensures n != null ==> n == sh.nodes[PathFrom(filter, d)]
    {
      ghost var path := PathFrom(filter, d);
      var hasNext, i := true, 0;
      n := root;
      ghost var at: Path := [];
      while hasNext
        invariant i <= |path| && (hasNext <==> i < |path|) && at == path[..i]
        invariant at in sh.nodes && n == sh.nodes[at]
        decreases |path| - i
      {
        WalkStep(filter, d, i, path);
        PrefixStep(path, i);
        var key;
        key, hasNext := IsolateParticle(filter, d + i);
        assert LinkedDown(sh, at);
        if key !in n.particles {
          AbsentBelow(sh, path, i);
          return null;
        }
        n := n.particles[key];
        at, i := at + [key], i + 1;
      }
      assert path[..|path|] == path;
    }

    /** Unlinks the particle at `path`, which has no children, and returns its parent. */
    method RemoveLeaf(n: Particle, ghost path: Path) returns (parent: Particle)
      requires Linked() && path != [] && path in sh.nodes && sh.nodes[path] == n && n.particles == map[]
      modifies this`sh, sh.repr`particles
      ensures Linked() && sh == WithoutLeaf(old(sh), path)
      ensures Parent(path) in sh.nodes && parent == sh.nodes[Parent(path)]
    {
      assert LinkedUp(sh, path);
      parent := n.parent;
      parent.particles := parent.particles - {n.key};
      ghost var at := Spot(sh, path);
      RemovedUp(at);
      RemovedDown(at);
      RemovedPlaced(at);
      sh := WithoutLeaf(sh, path);
    }

    /** Removes spare particles from `start` upwards. */
    method Trim(start: Particle, ghost path: Path)
      requires Linked() && path in sh.nodes && sh.nodes[path] == start && GroupsHaveMembers(sh.contents)
      modifies this`sh, sh.repr`particles
      ensures Linked() && retained == old(retained) && sh.repr == old(sh).repr
      ensures sh.contents == TrieContents.Trim(old(sh).contents, path)
    {
      var n := start;
      ghost var at := path;
      while true
        invariant Linked() && sh.repr == old(sh).repr && at in sh.nodes && sh.nodes[at] == n
        invariant GroupsHaveMembers(sh.contents)
        invariant TrieContents.Trim(sh.contents, at) == TrieContents.Trim(old(sh).contents, path)
        decreases |at|
      {
        assert LinkedUp(sh, at);
        MirrorAt(sh, at);
        if n.parent == null || n.retainPath != "" {
          break;
        }
        var shared := n.SharedLen();
        if |n.particles| + |n.subscriptions| + shared + |n.inlineSubscriptions| != 0 {
          break;
        }
        n := RemoveLeaf(n, at);
        at := Parent(at);
      }
    }

    // -------------------------------------------------------------- one particle's maps

    method AddSubscription(n: Particle, client: string, sub: Subscription, ghost path: Path)
      requires Linked() && path in sh.nodes && n == sh.nodes[path]
      modifies this`sh, n`subscriptions
      ensures Linked() && retained == old(retained) && sh == WithNode(old(sh), path, AddSub(old(sh).contents[path], client, sub))
    {
      MirrorAt(sh, path);
      label Before:
      n.subscriptions := n.subscriptions[client := sub];
      DataChanged@Before(Spot(sh, path));
      sh := WithNode(sh, path, Data(n));
    }

    method DeleteSubscription(n: Particle, client: string, ghost path: Path)
      requires Linked() && path in sh.nodes && n == sh.nodes[path]
      modifies this`sh, n`subscriptions
      ensures Linked() && retained == old(retained) && sh == WithNode(old(sh), path, DropSub(old(sh).contents[path], client))
    {
      MirrorAt(sh, path);
      label Before:
      n.subscriptions := n.subscriptions - {client};
      DataChanged@Before(Spot(sh, path));
      sh := WithNode(sh, path, Data(n));
    }

    method StoreShared(n: Particle, shared: map<string, map<string, Subscription>>, ghost path: Path)
      requires Linked() && path in sh.nodes && n == sh.nodes[path]
      modifies this`sh, n`shared
      ensures Linked() && retained == old(retained) && sh == WithNode(old(sh), path, old(sh).contents[path].(shared := shared))
    {
      MirrorAt(sh, path);
      label Before:
      n.shared := shared;
      DataChanged@Before(Spot(sh, path));
      sh := WithNode(sh, path, Data(n));
    }

    method AddShared(n: Particle, group: string, client: string, sub: Subscription, ghost path: Path)
      requires Linked() && path in sh.nodes && n == sh.nodes[path]
      modifies this`sh, n`shared
      ensures Linked() && retained == old(retained) &&
              sh == WithNode(old(sh), path, TopicTable.AddShared(old(sh).contents[path], group, client, sub))
    {
      MirrorAt(sh, path);
      var members := if group in n.shared then n.shared[group] else map[];
      StoreShared(n, n.shared[group := members[client := sub]], path);
    }

    method DeleteShared(n: Particle, group: string, client: string, ghost path: Path)
      requires Linked() && path in sh.nodes && n == sh.nodes[path]
      modifies this`sh, n`shared
      ensures Linked() && retained == old(retained) && sh == WithNode(old(sh), path, DropShared(old(sh).contents[path], group, client))
    {
      MirrorAt(sh, path);
      var members := if group in n.shared then n.shared[group] - {client} else map[];
      assert members == Group(sh.contents[path], group) - {client};
      StoreShared(n, if |members| == 0 then n.shared - {group} else n.shared[group := members], path);
    }

    method AddInline(n: Particle, id: int, sub: Subscription, ghost path: Path)
      requires Linked() && path in sh.nodes && n == sh.nodes[path]
      modifies this`sh, n`inlineSubscriptions
      ensures Linked() && retained == old(retained) && sh == WithNode(old(sh), path, TopicTable.AddInline(old(sh).contents[path], id, sub))
    {
      MirrorAt(sh, path);
      label Before:
      n.inlineSubscriptions := n.inlineSubscriptions[id := sub];
      DataChanged@Before(Spot(sh, path));
      sh := WithNode(sh, path, Data(n));
    }

    method DeleteInline(n: Particle, id: int, ghost path: Path)
      requires Linked() && path in sh.nodes && n == sh.nodes[path]
      modifies this`sh, n`inlineSubscriptions
      ensures Linked() && retained == old(retained) && sh == WithNode(old(sh), path, DropInline(old(sh).contents[path], id))
    {
      MirrorAt(sh, path);
      label Before:
      n.inlineSubscriptions := n.inlineSubscriptions - {id};
      DataChanged@Before(Spot(sh, path));
      sh := WithNode(sh, path, Data(n));
    }

    method SetRetainPath(n: Particle, topic: string, ghost path: Path)
      requires Linked() && path in sh.nodes && n == sh.nodes[path]
      modifies this`sh, n`retainPath
      ensures Linked() && retained == old(retained) && sh == WithNode(old(sh), path, old(sh).contents[path].(retainPath := topic))
    {
      MirrorAt(sh, path);
      label Before:
      n.retainPath := topic;
      DataChanged@Before(Spot(sh, path));
      sh := WithNode(sh, path, Data(n));
    }

    method StoreRetained(messages: map<string, Message>)
      requires Linked()
      modifies this`retained
      ensures Linked() && retained == messages && sh == old(sh)
    {
      retained := messages;
    }

    // -------------------------------------------------------------- operations

    method Subscribe(client: string, sub: Subscription) returns (isNew: bool)
      requires Valid() && sub.identifiers == None
      modifies this`sh, sh.repr
      ensures Valid() && old(sh).repr <= sh.repr && (forall o <- sh.repr :: o in old(sh).repr || fresh(o))
      ensures var place := PlaceOf(sub.filter); var was := At(old(Table()), place.path);
              && Table() == With(old(Table()), place.path, Joined(was, client, place, sub))
              && (isNew <==> !Holds(was, client, place))
    {
      ghost var place := PlaceOf(sub.filter);
      ghost var path, was := place.path, At(Table(), place.path);
      JoinedCoherent(Table(), retained, client, sub);
      MeansWith(sh, path, Joined(was, client, place, sub));
      var prefix, _ := IsolateParticle(sub.filter, 0);
      if IsSharePrefix(prefix) {
        var group, _ := IsolateParticle(sub.filter, 1);
        assert place == Shared(group, PathFrom(sub.filter, 2));
        var n := Set(sub.filter, 2);
        assert n.shared == was.shared by { MirrorAt(sh, path); }
        isNew := group !in n.shared || client !in n.shared[group];
        assert isNew <==> !Holds(was, client, place);
        AddShared(n, group, client, sub, path);
      } else {
        assert place == Plain(PathFrom(sub.filter, 0));
        var n := Set(sub.filter, 0);
        assert n.subscriptions == was.subs by { MirrorAt(sh, path); }
        isNew := client !in n.subscriptions;
        assert isNew <==> !Holds(was, client, place);
        AddSubscription(n, client, sub, path);
      }
    }

    method Unsubscribe(filter: string, client: string) returns (existed: bool)
      requires Valid()
      modifies this`sh, sh.repr
      ensures Valid() && sh.repr == old(sh).repr
      ensures var place := PlaceOf(filter);
              && Table() == With(old(Table()), place.path, Departed(At(old(Table()), place.path), client, place))
              && (existed <==> exists q :: q in old(Table()) && place.path <= q)
    {
      ghost var place := PlaceOf(filter);
      ghost var path, after := place.path, Departed(At(Table(), place.path), client, place);
      DepartedCoherent(Table(), retained, client, place);
      TrimMeansWith(sh, path, after, retained);
      Present(sh, path);
      var prefix, _ := IsolateParticle(filter, 0);
      var isShare := IsSharePrefix(prefix);
      var n := Seek(filter, if isShare then 2 else 0);
      if n == null {
        DepartedAbsent(Table(), client, place);
        return false;
      }
      if isShare {
        var group, _ := IsolateParticle(filter, 1);
        DeleteShared(n, group, client, path);
      } else {
        DeleteSubscription(n, client, path);
      }
      Trim(n, path);
      return true;
    }

    method InlineSubscribe(id: int, sub: Subscription) returns (isNew: bool)
      requires Valid()
      modifies this`sh, sh.repr
      ensures Valid() && old(sh).repr <= sh.repr && (forall o <- sh.repr :: o in old(sh).repr || fresh(o))
      ensures var path := Split(sub.filter); var was := At(old(Table()), path);
              && Table() == With(old(Table()), path, TopicTable.AddInline(was, id, sub))
              && (isNew <==> id !in was.inline)
    {
      ghost var path, was := Split(sub.filter), At(Table(), Split(sub.filter));
      InlineCoherent(Table(), retained, path, was.inline[id := sub]);
      MeansWith(sh, path, TopicTable.AddInline(was, id, sub));
      assert id in TopicTable.AddInline(was, id, sub).inline;
      var n := Set(sub.filter, 0);
      assert n.inlineSubscriptions == was.inline by { MirrorAt(sh, path); }
      isNew := id !in n.inlineSubscriptions;
      AddInline(n, id, sub, path);
    }

    method InlineUnsubscribe(id: int, filter: string) returns (existed: bool)
      requires Valid()
      modifies this`sh, sh.repr
      ensures Valid() && sh.repr == old(sh).repr
      ensures var path := Split(filter);
              && Table() == With(old(Table()), path, DropInline(At(old(Table()), path), id))
              && (existed <==> exists q :: q in old(Table()) && path <= q)
    {
      ghost var path, was := Split(filter), At(Table(), Split(filter));
      ghost var after := DropInline(was, id);
      InlineCoherent(Table(), retained, path, was.inline - {id});
      TrimMeansWith(sh, path, after, retained);
      MeansWith(sh, path, after);
      Present(sh, path);
      var n := Seek(filter, 0);
      if n == null {
        DropInlineAbsent(Table(), path, id);
        return false;
      }
      DeleteInline(n, id, path);
      assert n.inlineSubscriptions == after.inline by { MirrorAt(sh, path); }
      if |n.inlineSubscriptions| == 0 {
        Trim(n, path);
      } else {
        assert after != EMPTY_NODE;
      }
      return true;
    }

    /** An empty payload clears what is retained; the result says how the count changed. */
    method RetainMessage(msg: Message) returns (out: int)
      requires Valid() && msg.topic != ""
      modifies this, sh.repr
      ensures Valid() && old(sh).repr <= sh.repr && (forall o <- sh.repr :: o in old(sh).repr || fresh(o))
      ensures var path := Split(msg.topic); var keep := msg.payload != "";
              && Table() == With(old(Table()), path, At(old(Table()), path).(retainPath := if keep then msg.topic else ""))
              && retained == (if keep then old(retained)[msg.topic := msg] else old(retained) - {msg.topic})
      ensures out == if msg.payload != "" then 1
                     else if msg.topic in old(retained) && old(retained)[msg.topic].payload != "" && old(retained)[msg.topic].retain then -1
                     else 0
    {
      if |msg.payload| > 0 {
        Retain(msg);
        return 1;
      }
      out := 0;
      if msg.topic in retained && |retained[msg.topic].payload| > 0 && retained[msg.topic].retain {
        out := -1;
      }
      Release(msg.topic);
    }

    method Retain(msg: Message)
      requires Valid() && msg.topic != ""
      modifies this, sh.repr
      ensures Valid() && old(sh).repr <= sh.repr && (forall o <- sh.repr :: o in old(sh).repr || fresh(o))
      ensures var path := Split(msg.topic);
              Table() == With(old(Table()), path, At(old(Table()), path).(retainPath := msg.topic))
      ensures retained == old(retained)[msg.topic := msg]
    {
      ghost var path := Split(msg.topic);
      RetainedCoherent(Table(), retained, msg);
      MeansWith(sh, path, At(Table(), path).(retainPath := msg.topic));
      var n := Set(msg.topic, 0);
      SetRetainPath(n, msg.topic, path);
      StoreRetained(retained[msg.topic := msg]);
    }

    method Release(topic: string)
      requires Valid()
      modifies this, sh.repr
      ensures Valid() && old(sh).repr <= sh.repr && (forall o <- sh.repr :: o in old(sh).repr || fresh(o))
      ensures var path := Split(topic);
              Table() == With(old(Table()), path, At(old(Table()), path).(retainPath := ""))
      ensures retained == old(retained) - {topic}
    {
      ghost var path := Split(topic);
      ghost var after := At(Table(), path).(retainPath := "");
      ReleasedCoherent(Table(), retained, topic);
      TrimMeansWith(sh, path, after, retained - {topic});
      MeansWith(sh, path, after);
      var n := Set(topic, 0);
      SetRetainPath(n, "", path);
      StoreRetained(retained - {topic});
      Trim(n, path);
    }

    /** Expired messages are dropped; the trie keeps their paths. */
    method ClearExpiredRetained(now: int, maxExpiry: int)
      requires Valid()
      modifies this`retained
      ensures Valid() && retained == Unexpired(old(retained), {}, now, maxExpiry)
      ensures forall t :: t in retained ==> t in old(retained) && retained[t] == old(retained)[t]
      ensures forall t <- old(retained) :: var m := old(retained)[t];
                t in retained <==> (m.version != 5 || m.expiry <= 0 || now <= m.expiry)
                                   && (maxExpiry <= 0 || now <= m.created + maxExpiry)
    {
      FewerCoherent(Table(), retained, Unexpired(retained, {}, now, maxExpiry));
      DeleteExpired(now, maxExpiry);
    }

    method DeleteExpired(now: int, maxExpiry: int)
      requires Linked()
      modifies this`retained
      ensures Linked() && sh == old(sh) && retained == Unexpired(old(retained), {}, now, maxExpiry)
    {
      var all, left := retained, retained.Keys;
      assert Unexpired(all, left, now, maxExpiry) == all;
      while left != {}
        invariant left <= all.Keys && Linked() && sh == old(sh)
        invariant retained == Unexpired(all, left, now, maxExpiry)
        decreases |left|
      {
        var t :| t in left;
        UnexpiredStep(all, left, t, now, maxExpiry);
        left := left - {t};
        if IsExpired(all[t], now, maxExpiry) {
          StoreRetained(retained - {t});
        }
      }
    }
  }

  /** What trimming leaves once the entry at `path` has become `n`. */
  lemma TrimMeansWith(sh: Shape, path: Path, n: Node, retained: map<string, Message>)
    requires WellLinked(sh) && Pruned(sh.contents) && Coherent(With(Flat(sh.contents), path, n), retained)
    ensures var g := Grow(sh.contents, path)[path := n];
            && GroupsHaveMembers(g) && Pruned(TrieContents.Trim(g, path))
            && Flat(TrieContents.Trim(g, path)) == With(Flat(sh.contents), path, n)
  {
    MeansWith(sh, path, n);
    var g := Grow(sh.contents, path)[path := n];
    TrimKeeps(g, path);
    forall p <- g ensures forall k <- g[p].shared :: g[p].shared[k] != map[] {
      assert g[p] != EMPTY_NODE ==> p in Flat(g);
    }
  }

  /** A node that exists is already in the trie `set` would make; its path leads to an entry. */
  lemma Present(sh: Shape, path: Path)
    requires WellLinked(sh) && Pruned(sh.contents) && path != []
    ensures path in sh.nodes ==> Grow(sh.contents, path) == sh.contents && sh.contents[path] == At(Flat(sh.contents), path)
    ensures path !in sh.nodes ==> path !in Flat(sh.contents)
    ensures path in sh.nodes <==> exists q :: q in Flat(sh.contents) && path <= q
  {
    LinksMirrorContents(sh);
    if path in sh.nodes {
      GrowPresent(sh.contents, path);
      PrunedIsExact(sh.contents, path);
    }
    if q :| q in Flat(sh.contents) && path <= q {
      PrefixIn(sh.contents, path, q);
    }
  }

  /** `FillMeansWith` for the contents of a linked trie. */
  lemma MeansWith(sh: Shape, path: Path, n: Node)
    requires WellLinked(sh) && Pruned(sh.contents)
    ensures var g := Grow(sh.contents, path);
            && PrunedBut(g[path := n], path) && PrefixClosed(g[path := n])
            && path in g && g[path] == At(Flat(sh.contents), path)
            && Flat(g[path := n]) == With(Flat(sh.contents), path, n)
            && (n != EMPTY_NODE ==> Pruned(g[path := n]))
  {
    LinksMirrorContents(sh);
    FillMeansWith(sh.contents, path, n);
  }

  ghost predicate GroupsHaveMembers(t: Trie) {
    forall p <- t, g <- t[p].shared :: t[p].shared[g] != map[]
  }

  /** What the particle at `p` shows of the contents there. */
  lemma MirrorAt(sh: Shape, p: Path)
    requires WellLinked(sh) && p in sh.nodes
    ensures Stores(sh.nodes[p], sh.contents[p])
    ensures HasChild(sh.contents, p) <==> sh.nodes[p].particles != map[]
  {
    LinksMirrorContents(sh);
  }

  lemma ChildLookup(sh: Shape, path: Path, k: string)
    requires WellLinked(sh) && path in sh.nodes
    ensures k in sh.nodes[path].particles <==> path + [k] in sh.nodes
    ensures k in sh.nodes[path].particles ==> sh.nodes[path].particles[k] == sh.nodes[path + [k]]
  {
    assert LinkedDown(sh, path);
    assert Parent(path + [k]) == path && Last(path + [k]) == k;
    assert path + [k] in sh.nodes ==> LinkedUp(sh, path + [k]);
  }

  /** A path whose first missing step is at `i` is not in the trie. */
  lemma {:induction false} AbsentBelow(sh: Shape, path: Path, i: nat)
    requires WellLinked(sh) && i < |path| && path[..i] in sh.nodes && path[i] !in sh.nodes[path[..i]].particles
    ensures path !in sh.nodes
    decreases |path|
  {
    assert path in sh.nodes ==> LinkedUp(sh, path);
    if i < |path| - 1 {
      assert Parent(path)[..i] == path[..i];
      AbsentBelow(sh, Parent(path), i);
    } else {
      assert Parent(path) == path[..i];
    }
  }
}
