/** `scanSubscribers`: the walk down the trie finds exactly what a flat scan would. */
module SubscriberScan {
  import opened Levels
  import opened TrieContents
  import opened TopicTable
  import opened TopicIndex
  import opened Topics
  import opened Matching
  import opened Delivery
  import opened Subscribers

  // ---------------------------------------------------------------- which paths are visited

  /** What a filter's levels below level `k` must be, once `k` has matched the first level. */
  predicate Continues(k: string, rest: Path, tl: Path)
    requires tl != []
  {
    if |tl| > 1 then Reaches(rest, tl[1..]) else rest == [] || (rest == [HASH] && k != PLUS)
  }

  ghost predicate IsHit(t: Trie, path: Path, tl: Path, q: Path)
    requires tl != []
  {
    q in t && path <= q && Reaches(q[|path|..], tl)
  }

  ghost predicate IsChildHit(t: Trie, path: Path, tl: Path, k: string, q: Path)
    requires tl != []
  {
    q in t && path + [k] <= q && Continues(k, q[|path| + 1..], tl)
  }

  ghost function Hits(t: Trie, path: Path, tl: Path): set<Path>
    requires tl != []
  {
    set q | q in t && IsHit(t, path, tl, q)
  }

  ghost function ChildHits(t: Trie, path: Path, tl: Path, k: string): set<Path>
    requires tl != []
  {
    set q | q in t && IsChildHit(t, path, tl, k, q)
  }

  ghost function Exactly(t: Trie, p: Path): set<Path> { if p in t then {p} else {} }

  /** The scan's three lookups at one node cover all that is reached below it. */
  lemma HitsSplit(t: Trie, path: Path, tl: Path, seen: set<Path>)
    requires tl != []
    ensures seen + Hits(t, path, tl) ==
              seen + ChildHits(t, path, tl, tl[0]) + ChildHits(t, path, tl, PLUS) + Exactly(t, path + [HASH])
  {
    forall q | q in t ensures IsHit(t, path, tl, q) <==>
        IsChildHit(t, path, tl, tl[0], q) || IsChildHit(t, path, tl, PLUS, q) || q == path + [HASH] {
      if path <= q {
        var fl := q[|path|..];
        assert q == path + fl;
        assert fl == [HASH] <==> q == path + [HASH];
        if fl != [] {
          assert fl[1..] == q[|path| + 1..];
          assert forall k :: path + [k] <= q <==> fl[0] == k;
        }
      }
    }
  }

  lemma ChildHitsBelow(t: Trie, path: Path, tl: Path, k: string)
    requires PrefixClosed(t) && tl != []
    ensures path + [k] !in t ==> ChildHits(t, path, tl, k) == {}
    ensures |tl| > 1 ==> ChildHits(t, path, tl, k) == Hits(t, path + [k], tl[1..])
    ensures |tl| == 1 && path + [k] in t ==>
              ChildHits(t, path, tl, k) == {path + [k]} + (if k == PLUS then {} else Exactly(t, path + [k] + [HASH]))
  {
    var child := path + [k];
    forall q | q in t && child <= q ensures child in t { PrefixIn(t, child, q); }
    forall q | q in t && child <= q ensures q == child + q[|path| + 1..] {}
    if |tl| > 1 {
      forall q | q in t ensures IsChildHit(t, path, tl, k, q) <==> IsHit(t, child, tl[1..], q) {}
    } else {
      forall q | q in t ensures IsChildHit(t, path, tl, k, q) <==> q == child || (k != PLUS && q == child + [HASH]) {
        if child <= q {
          assert q[|path| + 1..] == [] <==> q == child;
          assert q[|path| + 1..] == [HASH] <==> q == child + [HASH];
        }
      }
    }
  }

  // ---------------------------------------------------------------- gathering

  /** Inline subscriptions are gathered at visited paths no longer than the topic. */
  ghost function Short(seen: set<Path>, n: nat): set<Path> { set p | p in seen && |p| <= n }

  /** What has been gathered after visiting the paths in `seen`. */
  ghost predicate Found(s: Subscribers, f: Trie, seen: set<Path>, topic: string)
    reads s
  {
    && Collects(s.subscriptions, f, seen, topic)
    && CollectsShared(s.shared, Offers(f, seen))
    && CollectsInline(s.inlineSubscriptions, f, Short(seen, |Split(topic)|))
  }

  lemma OffersUnambiguous(at: string -> Place, f: Trie, retained: map<string, Message>, seen: set<Path>)
    requires CoherentFor(at, f, retained)
    ensures Unambiguous(Offers(f, seen))
    ensures forall o <- Offers(f, seen) :: o.1.identifiers == None
  {
  }

  lemma TableFacts(f: Trie, retained: map<string, Message>, seen: set<Path>)
    requires Coherent(f, retained)
    ensures Distinct(f) && Unambiguous(Offers(f, seen))
  {
  }

  lemma OffersNext(f: Trie, seen: set<Path>, p: Path)
    ensures Offers(f, seen + {p}) == Offers(f, seen) + NodeOffers(At(f, p))
  {
  }

  lemma ShortNext(seen: set<Path>, p: Path, n: nat)
    ensures Short(seen + {p}, n) == if |p| <= n then Short(seen, n) + {p} else Short(seen, n)
  {
  }

  method GatherClients(topic: string, n: Particle, s: Subscribers, ghost f: Trie, ghost p: Path, ghost seen: set<Path>)
    requires Stores(n, At(f, p)) && Distinct(f) && Unambiguous(Offers(f, seen + {p}))
    requires Collects(s.subscriptions, f, seen, topic) && CollectsShared(s.shared, Offers(f, seen))
    modifies s`subscriptions, s`shared
    ensures Collects(s.subscriptions, f, seen + {p}, topic) && CollectsShared(s.shared, Offers(f, seen + {p}))
  {
    GatherCollects(s.subscriptions, f, seen, topic, p);
    OffersNext(f, seen, p);
    s.GatherSubscriptions(topic, n.subscriptions);
    s.GatherShared(n.shared, Offers(f, seen), At(f, p));
  }

  /** All that the particle at `p` holds. */
  method GatherAll(topic: string, n: Particle, s: Subscribers, ghost f: Trie, ghost p: Path, ghost seen: set<Path>)
    requires Stores(n, At(f, p)) && Distinct(f) && Unambiguous(Offers(f, seen + {p}))
    requires Found(s, f, seen, topic) && |p| <= |Split(topic)|
    modifies s`subscriptions, s`shared, s`inlineSubscriptions
    ensures Found(s, f, seen + {p}, topic)
  {
    GatherClients(topic, n, s, f, p, seen);
    InlineCollects(s.inlineSubscriptions, f, Short(seen, |Split(topic)|), p);
    ShortNext(seen, p, |Split(topic)|);
    s.GatherInline(n.inlineSubscriptions);
  }

  /** The clients of a `#` child of the matched particle `n`, and the inline ones of `n` again. */
  method GatherWild(topic: string, n: Particle, wild: Particle, s: Subscribers, ghost f: Trie, ghost p: Path, ghost seen: set<Path>)
    requires Stores(n, At(f, p)) && Stores(wild, At(f, p + [HASH]))
    requires Distinct(f) && Unambiguous(Offers(f, seen + {p + [HASH]}))
    requires Found(s, f, seen, topic) && p in seen && |p| == |Split(topic)|
    modifies s`subscriptions, s`shared, s`inlineSubscriptions
    ensures Found(s, f, seen + {p + [HASH]}, topic)
  {
    GatherClients(topic, wild, s, f, p + [HASH], seen);
    ghost var short := Short(seen, |Split(topic)|);
    assert short + {p} == short;
    InlineCollects(s.inlineSubscriptions, f, short, p);
    ShortNext(seen, p + [HASH], |Split(topic)|);
    s.GatherInline(n.inlineSubscriptions);
  }

  // ---------------------------------------------------------------- the scan

  /** What a particle stores is its entry in the table. */
  lemma StoresEntry(sh: Shape, p: Path)
    requires WellLinked(sh) && p in sh.nodes
    ensures Stores(sh.nodes[p], At(Flat(sh.contents), p))
  {
  }

  method GatherAt(x: TopicsIndex, topic: string, n: Particle, s: Subscribers, ghost p: Path, ghost seen: set<Path>)
    requires x.Valid() && p in x.sh.nodes && n == x.sh.nodes[p] && |p| <= |Split(topic)|
    requires Found(s, x.Table(), seen, topic)
    modifies s
    ensures x.Valid() && Found(s, x.Table(), seen + {p}, topic)
  {
    TableFacts(x.Table(), x.retained, seen + {p});
    StoresEntry(x.sh, p);
    GatherAll(topic, n, s, x.Table(), p, seen);
  }

  /** The `#` child of the particle at `path`, whatever the topic's next level. */
  method GatherHash(x: TopicsIndex, topic: string, n: Particle, s: Subscribers, ghost path: Path, ghost seen: set<Path>)
    requires x.Valid() && path in x.sh.nodes && n == x.sh.nodes[path] && |path| < |Split(topic)|
    requires Found(s, x.Table(), seen, topic)
    modifies s
    ensures x.Valid() && Found(s, x.Table(), seen + Exactly(x.sh.contents, path + [HASH]), topic)
  {
    ChildLookup(x.sh, path, HASH);
    if HASH in n.particles {
      GatherAt(x, topic, n.particles[HASH], s, path + [HASH], seen);
    } else {
      assert seen + {} == seen;
    }
  }

  /** The `#` child of the particle that matches the topic's last level. */
  method GatherBelow(x: TopicsIndex, topic: string, n: Particle, s: Subscribers, ghost p: Path, ghost seen: set<Path>)
    requires x.Valid() && p in x.sh.nodes && n == x.sh.nodes[p] && p in seen && |p| == |Split(topic)|
    requires Found(s, x.Table(), seen, topic)
    modifies s
    ensures x.Valid() && Found(s, x.Table(), seen + Exactly(x.sh.contents, p + [HASH]), topic)
  {
    ChildLookup(x.sh, p, HASH);
    if HASH in n.particles {
      TableFacts(x.Table(), x.retained, seen + {p + [HASH]});
      StoresEntry(x.sh, p);
      StoresEntry(x.sh, p + [HASH]);
      GatherWild(topic, n, n.particles[HASH], s, x.Table(), p, seen);
    } else {
      assert seen + {} == seen;
    }
  }

  method GatherMatch(x: TopicsIndex, topic: string, particle: Particle, s: Subscribers, isPlus: bool,
                     ghost child: Path, ghost seen: set<Path>)
    requires x.Valid() && child in x.sh.nodes && particle == x.sh.nodes[child] && |child| == |Split(topic)|
    requires Found(s, x.Table(), seen, topic)
    modifies s
    ensures x.Valid() && Found(s, x.Table(), seen + ({child} + (if isPlus then {} else Exactly(x.sh.contents, child + [HASH]))), topic)
  {
    GatherAt(x, topic, particle, s, child, seen);
    if !isPlus {
      GatherBelow(x, topic, particle, s, child, seen + {child});
    }
    ghost var below := Exactly(x.sh.contents, child + [HASH]);
    assert seen + {child} + below == seen + ({child} + below) && seen + {child} == seen + ({child} + {});
  }

  method ScanSubscribers(x: TopicsIndex, topic: string, d: nat, n: Particle, s: Subscribers, ghost path: Path, ghost seen: set<Path>)
    requires x.Valid() && path in x.sh.nodes && n == x.sh.nodes[path] && |path| == d < |Split(topic)|
    requires Found(s, x.Table(), seen, topic)
    modifies s
    ensures x.Valid() && Found(s, x.Table(), seen + Hits(x.sh.contents, path, Split(topic)[d..]), topic)
    decreases |Split(topic)| - d, 1
  {
    ghost var t, tl := x.sh.contents, Split(topic)[d..];
    HitsSplit(t, path, tl, seen);
    var key, hasNext := IsolateParticle(topic, d);
    ghost var first := seen + ChildHits(t, path, tl, key);
    VisitChild(x, topic, d, n, s, key, hasNext, path, seen);
    VisitChild(x, topic, d, n, s, PLUS, hasNext, path, first);
    GatherHash(x, topic, n, s, path, first + ChildHits(t, path, tl, PLUS));
  }

  method VisitChild(x: TopicsIndex, topic: string, d: nat, n: Particle, s: Subscribers, partKey: string, hasNext: bool,
                    ghost path: Path, ghost seen: set<Path>)
    requires x.Valid() && path in x.sh.nodes && n == x.sh.nodes[path] && |path| == d < |Split(topic)|
    requires hasNext == (d + 1 < |Split(topic)|)
    requires Found(s, x.Table(), seen, topic)
    modifies s
    ensures x.Valid() && Found(s, x.Table(), seen + ChildHits(x.sh.contents, path, Split(topic)[d..], partKey), topic)
    decreases |Split(topic)| - d, 0
  {
    ghost var tl := Split(topic)[d..];
    LinksMirrorContents(x.sh);
    ChildHitsBelow(x.sh.contents, path, tl, partKey);
    ChildLookup(x.sh, path, partKey);
    if partKey !in n.particles {
      assert seen + {} == seen;
    } else if hasNext {
      assert tl[1..] == Split(topic)[d + 1..];
      ScanSubscribers(x, topic, d + 1, n.particles[partKey], s, path + [partKey], seen);
    } else {
      GatherMatch(x, topic, n.particles[partKey], s, partKey == PLUS, path + [partKey], seen);
    }
  }

  // ---------------------------------------------------------------- what a publisher finds

  /** The paths in the table that a topic reaches. */
  ghost function Reached(f: Trie, topic: string): set<Path> { set p | p in f && Reaches(p, Split(topic)) }

  lemma HitsAreReached(t: Trie, topic: string)
    ensures Reached(Flat(t), topic) <= Hits(t, [], Split(topic))
    ensures forall p <- Hits(t, [], Split(topic)) :: p in Reached(Flat(t), topic) || At(Flat(t), p) == EMPTY_NODE
  {
  }

  /** Empty nodes contribute nothing. */
  lemma FoundReached(s: Subscribers, t: Trie, topic: string)
    requires Found(s, Flat(t), Hits(t, [], Split(topic)), topic)
    ensures Found(s, Flat(t), Reached(Flat(t), topic), topic)
  {
    var f, hits, reached := Flat(t), Hits(t, [], Split(topic)), Reached(Flat(t), topic);
    HitsAreReached(t, topic);
    forall c ensures MatchedBy(f, reached, topic, c) == MatchedBy(f, hits, topic, c) {}
    assert Offers(f, reached) == Offers(f, hits);
  }

  method FindSubscribers(x: TopicsIndex, topic: string) returns (s: Subscribers)
    requires x.Valid()
    ensures fresh(s) && Found(s, x.Table(), if topic == "" then {} else Reached(x.Table(), topic), topic)
  {
    s := new Subscribers();
    if |topic| > 0 {
      ScanSubscribers(x, topic, 0, x.root, s, [], {});
      assert Split(topic)[0..] == Split(topic);
      assert {} + Hits(x.sh.contents, [], Split(topic)) == Hits(x.sh.contents, [], Split(topic));
      FoundReached(s, x.sh.contents, topic);
    }
  }

  // ---------------------------------------------------------------- share members join

  lemma ListedWell(f: Trie, retained: map<string, Message>, shared: Listing, seen: set<Path>)
    requires Coherent(f, retained) && CollectsShared(shared, Offers(f, seen))
    ensures WellListed(shared)
  {
    OffersUnambiguous(PlaceOf, f, retained, seen);
    forall flt <- shared, c <- shared[flt] ensures shared[flt][c].filter == flt && shared[flt][c].identifiers == None {
      assert Offered(shared, Offers(f, seen), flt, c);
    }
  }

  /** Every share filter has a recipient among its members. */
  ghost predicate EveryShareServed(recipients: set<string>, offers: set<Offer>) {
    forall o <- offers :: exists o' <- offers :: o'.1.filter == o.1.filter && o'.0 in recipients
  }

  /** Each recipient's own subscriptions matched, or it was offered a share. */
  ghost predicate NoStrangers(recipients: set<string>, f: Trie, seen: set<Path>, topic: string) {
    forall c <- recipients :: MatchedBy(f, seen, topic, c) != {} || exists o <- Offers(f, seen) :: o.0 == c
  }

  ghost predicate AllServed(recipients: set<string>, f: Trie, seen: set<Path>, topic: string) {
    && EveryShareServed(recipients, Offers(f, seen)) && NoStrangers(recipients, f, seen, topic)
    && forall c | MatchedBy(f, seen, topic, c) != {} :: c in recipients
  }

  lemma RecipientsFollow(own: map<string, Subscription>, selected: map<string, Subscription>, shared: Listing,
                         choice: map<string, string>, f: Trie, seen: set<Path>, topic: string)
    requires Collects(own, f, seen, topic) && CollectsShared(shared, Offers(f, seen))
    requires Chooses(choice, shared, {}) && Picked(selected, shared, choice)
    ensures AllServed(Gathered(own, selected, "").Keys, f, seen, topic)
  {
    var offers := Offers(f, seen);
    assert Gathered(own, selected, "").Keys == own.Keys + selected.Keys;
    forall o <- offers ensures exists o' <- offers :: o'.1.filter == o.1.filter && o'.0 in own.Keys + selected.Keys {
      assert Listed(shared, o);
      var flt := o.1.filter;
      var c := choice[flt];
      assert Offered(shared, offers, flt, c);
      assert Picks(shared, choice, flt, c);
      assert shared[flt][c] in PickedFor(shared, choice, c);
      assert (c, shared[flt][c]) in offers;
    }
    forall c <- own.Keys + selected.Keys ensures MatchedBy(f, seen, topic, c) != {} || exists o <- offers :: o.0 == c {
      if c !in own {
        var sub :| sub in PickedFor(shared, choice, c);
        var flt :| flt in choice && Picks(shared, choice, flt, c) && sub == shared[flt][c];
        assert Offered(shared, offers, flt, c);
        assert (c, sub) in offers;
      }
    }
  }

  /** Every recipient is served with its own subscriptions and those it was picked for. */
  ghost predicate ServedOptions(recipients: map<string, Subscription>, f: Trie, seen: set<Path>, topic: string,
                                shared: Listing, choice: map<string, string>, picks: seq<Pick>) {
    forall c <- recipients ::
      ServedWith(recipients[c], MatchedBy(f, seen, topic, c), PickedFor(shared, choice, c), FirstPick(picks, c))
  }

  ghost predicate OnePerFilter(subs: set<Subscription>) {
    forall s <- subs, s' <- subs :: s.filter == s'.filter ==> s == s'
  }

  /** A filter is listed as shared or filed as a client's own, never both. */
  lemma OwnOrShared(at: string -> Place, f: Trie, retained: map<string, Message>, seen: set<Path>, topic: string,
                    shared: Listing, choice: map<string, string>, c: string)
    requires CoherentFor(at, f, retained) && CollectsShared(shared, Offers(f, seen))
    ensures forall s <- MatchedBy(f, seen, topic, c) :: at(s.filter).Plain?
    ensures forall s <- PickedFor(shared, choice, c) :: at(s.filter).Shared?
    ensures OnePerFilter(MatchedBy(f, seen, topic, c)) && OnePerFilter(PickedFor(shared, choice, c))
  {
    forall flt | flt in shared && c in shared[flt]
      ensures shared[flt][c].filter == flt && (c, shared[flt][c]) in Offers(f, seen) {
      assert Offered(shared, Offers(f, seen), flt, c);
    }
  }

  lemma Apart(at: string -> Place, plain: set<Subscription>, from: set<Subscription>)
    requires (forall s <- plain :: at(s.filter).Plain?) && (forall s <- from :: at(s.filter).Shared?)
    requires OnePerFilter(plain) && OnePerFilter(from)
    ensures plain !! from && OnePerFilter(plain + from)
  {
  }

  lemma OptionsFollowFor(at: string -> Place, own: map<string, Subscription>, selected: map<string, Subscription>, shared: Listing,
                         choice: map<string, string>, f: Trie, retained: map<string, Message>, seen: set<Path>, topic: string,
                         c: string, first: Option<string>)
    requires CoherentFor(at, f, retained) && CollectsShared(shared, Offers(f, seen))
    requires c in Gathered(own, selected, "")
    requires if c in own then Merged(own[c], MatchedBy(f, seen, topic, c)) else MatchedBy(f, seen, topic, c) == {}
    requires if c in selected then Merged(selected[c], PickedFor(shared, choice, c)) else PickedFor(shared, choice, c) == {}
    requires c in selected ==> first == Some(selected[c].filter)
    ensures ServedWith(Gathered(own, selected, "")[c], MatchedBy(f, seen, topic, c), PickedFor(shared, choice, c), first)
  {
    OwnOrShared(at, f, retained, seen, topic, shared, choice, c);
    Apart(at, MatchedBy(f, seen, topic, c), PickedFor(shared, choice, c));
    JoinOne(own, selected, c, MatchedBy(f, seen, topic, c), PickedFor(shared, choice, c), first);
  }

  lemma OptionsFollow(at: string -> Place, own: map<string, Subscription>, selected: map<string, Subscription>, shared: Listing,
                      choice: map<string, string>, picks: seq<Pick>, f: Trie, retained: map<string, Message>, seen: set<Path>,
                      topic: string)
    requires CoherentFor(at, f, retained) && Collects(own, f, seen, topic) && CollectsShared(shared, Offers(f, seen))
    requires Picked(selected, shared, choice) && PickedInTurn(picks, choice, selected)
    ensures ServedOptions(Gathered(own, selected, ""), f, seen, topic, shared, choice, picks)
  {
    forall c <- Gathered(own, selected, "")
      ensures ServedWith(Gathered(own, selected, "")[c], MatchedBy(f, seen, topic, c), PickedFor(shared, choice, c), FirstPick(picks, c)) {
      assert FirstIs(picks, selected, c);
      OptionsFollowFor(at, own, selected, shared, choice, f, retained, seen, topic, c, FirstPick(picks, c));
    }
  }

  lemma JoinOne(own: map<string, Subscription>, selected: map<string, Subscription>, c: string,
                plain: set<Subscription>, from: set<Subscription>, first: Option<string>)
    requires c in Gathered(own, selected, "")
    requires if c in own then Merged(own[c], plain) else plain == {}
    requires if c in selected then Merged(selected[c], from) && first == Some(selected[c].filter) else from == {}
    requires plain !! from && OnePerFilter(plain + from)
    ensures ServedWith(Gathered(own, selected, "")[c], plain, from, first)
  {
    if c !in selected {
      assert plain + {} == plain;
    } else if c !in own {
      assert {} + from == from;
      MergeSelf(selected[c], from);
    } else {
      JoinedServed(own[c], plain, selected[c], from);
    }
  }

  lemma NothingPicked(own: map<string, Subscription>)
    ensures Selecting(map[], map[], map[], [], {}) && Gathered(own, map[], "") == own
  {
  }

  /** One member of each share joins the other subscribers. */
  method AddShareMembers(s: Subscribers)
      returns (ghost choice: map<string, string>, ghost picks: seq<Pick>, ghost selected: map<string, Subscription>)
    requires WellListed(s.shared)
    modifies s
    ensures s.shared == old(s.shared) && Selecting(selected, s.shared, choice, picks, {})
    ensures s.subscriptions == Gathered(old(s.subscriptions), selected, "")
  {
    if |s.shared| > 0 {
      choice, picks := s.SelectShared();
      selected := s.sharedSelected;
      s.MergeSharedSelected();
    } else {
      choice, picks, selected := map[], [], map[];
      NothingPicked(s.subscriptions);
    }
  }

  /** Who is served a message on `topic`, and with which options, over the whole table. */
  method Recipients(x: TopicsIndex, topic: string) returns (s: Subscribers, ghost choice: map<string, string>, ghost picks: seq<Pick>)
    requires x.Valid() && topic != ""
    ensures AllServed(s.subscriptions.Keys, x.Table(), Reached(x.Table(), topic), topic)
    ensures CollectsShared(s.shared, Offers(x.Table(), Reached(x.Table(), topic))) && Chooses(choice, s.shared, {})
    ensures PicksOf(picks, choice)
    ensures ServedOptions(s.subscriptions, x.Table(), Reached(x.Table(), topic), topic, s.shared, choice, picks)
  {
    s := FindSubscribers(x, topic);
    ghost var f, seen, own, selected := x.Table(), Reached(x.Table(), topic), s.subscriptions, map[];
    ListedWell(f, x.retained, s.shared, seen);
    choice, picks, selected := AddShareMembers(s);
    RecipientsFollow(own, selected, s.shared, choice, f, seen, topic);
    OptionsFollow(PlaceOf, own, selected, s.shared, choice, picks, f, x.retained, seen, topic);
  }
}
