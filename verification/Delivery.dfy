/** Merging the subscriptions that match one topic, client by client. */
module Delivery {
  import opened Levels
  import opened TrieContents
  import opened TopicTable

  /** A topic starting with `$` is not matched by a filter that starts with a wildcard. */
  predicate Hidden(topic: string, filter: string) {
    topic != "" && topic[0] == '$' && filter != "" && (filter[0] == '+' || filter[0] == '#')
  }

  /** `Subscription.Merge`. */
  function Merge(s: Subscription, n: Subscription): Subscription {
    var ids := if s.identifiers == None then map[s.filter := s.identifier] else s.identifiers.value;
    s.(identifiers := Some(if n.identifier > 0 then ids[n.filter := n.identifier] else ids),
       qos := if n.qos > s.qos then n.qos else s.qos,
       noLocal := s.noLocal || n.noLocal)
  }

  /** `r` has the highest QoS, any NoLocal and exactly the positive identifiers of `from`. */
  ghost predicate Merged(r: Subscription, from: set<Subscription>) {
    && (exists s <- from :: r.filter == s.filter && r.identifier == s.identifier)
    && (forall s <- from :: s.qos <= r.qos) && (exists s <- from :: s.qos == r.qos)
    && (r.noLocal <==> exists s <- from :: s.noLocal)
    && r.identifiers.Some?
    && (forall s <- from :: s.identifier > 0 ==> s.filter in r.identifiers.value && r.identifiers.value[s.filter] == s.identifier)
    && (forall flt <- r.identifiers.value :: r.identifiers.value[flt] > 0 ==>
          exists s <- from :: s.filter == flt && s.identifier == r.identifiers.value[flt])
  }

  lemma MergeFirst(n: Subscription)
    requires n.identifiers == None
    ensures Merged(Merge(n, n), {n})
  {
  }

  /** Whatever the order, each merge accounts for one more subscription. */
  lemma MergeNext(r: Subscription, from: set<Subscription>, n: Subscription)
    requires Merged(r, from) && forall s <- from :: s.filter == n.filter ==> s == n
    ensures Merged(Merge(r, n), from + {n})
  {
  }

  // ---------------------------------------------------------------- gathering one entry after another

  /** The subscriptions of a client that a topic matches, at the paths `seen`. */
  ghost function MatchedBy(f: Trie, seen: set<Path>, topic: string, client: string): set<Subscription> {
    set p | p in seen && Visible(f, p, topic, client) :: f[p].subs[client]
  }

  /** The gathered map has each matched client once, with its subscriptions merged. */
  ghost predicate Collects(acc: map<string, Subscription>, f: Trie, seen: set<Path>, topic: string) {
    forall c {:trigger c in acc} {:trigger MatchedBy(f, seen, topic, c)} ::
      var from := MatchedBy(f, seen, topic, c);
      if c in acc then Merged(acc[c], from) else from == {}
  }

  function Gathered(acc: map<string, Subscription>, subs: map<string, Subscription>, topic: string): map<string, Subscription> {
    map c | c in acc.Keys + subs.Keys && (c in acc || !Hidden(topic, subs[c].filter)) ::
      if c in subs && !Hidden(topic, subs[c].filter) then Merge(if c in acc then acc[c] else subs[c], subs[c]) else acc[c]
  }

  /** Different paths hold different filters. */
  ghost predicate Distinct(f: Trie) {
    && (forall p <- f, q <- f, c <- f[p].subs :: c in f[q].subs && f[p].subs[c].filter == f[q].subs[c].filter ==> p == q)
    && (forall p <- f, c <- f[p].subs :: f[p].subs[c].identifiers == None)
  }

  lemma GatherCollects(acc: map<string, Subscription>, f: Trie, seen: set<Path>, topic: string, p: Path)
    requires Distinct(f) && Collects(acc, f, seen, topic)
    ensures Collects(Gathered(acc, At(f, p).subs, topic), f, seen + {p}, topic)
  {
    var acc' := Gathered(acc, At(f, p).subs, topic);
    forall c ensures var from := MatchedBy(f, seen + {p}, topic, c);
                     if c in acc' then Merged(acc'[c], from) else from == {} {
      GatherOne(acc, f, seen, topic, p, c);
    }
  }

  ghost predicate Visible(f: Trie, p: Path, topic: string, client: string) {
    p in f && client in f[p].subs && !Hidden(topic, f[p].subs[client].filter)
  }

  /** On topics that start with `$`, filters that start with a wildcard contribute nothing to
      any client; all other visited filters contribute, and on other topics all do. */
  lemma DollarTopics(f: Trie, seen: set<Path>, topic: string, client: string, p: Path)
    requires topic != "" && p in seen && p in f && client in f[p].subs && f[p].subs[client].filter != ""
    ensures var sub := f[p].subs[client]; var wild := sub.filter[0] == '+' || sub.filter[0] == '#';
            sub in MatchedBy(f, seen, topic, client) <==> topic[0] != '$' || !wild
  {
  }

  lemma MatchingNext(f: Trie, seen: set<Path>, topic: string, p: Path, c: string)
    requires Distinct(f)
    ensures var was := MatchedBy(f, seen, topic, c);
            && MatchedBy(f, seen + {p}, topic, c) == (if Visible(f, p, topic, c) then was + {f[p].subs[c]} else was)
            && (Visible(f, p, topic, c) ==> forall s <- was :: s.filter == f[p].subs[c].filter ==> s == f[p].subs[c])
  {
  }

  lemma GatherOne(acc: map<string, Subscription>, f: Trie, seen: set<Path>, topic: string, p: Path, c: string)
    requires Distinct(f) && Collects(acc, f, seen, topic)
    ensures var acc' := Gathered(acc, At(f, p).subs, topic); var from := MatchedBy(f, seen + {p}, topic, c);
            if c in acc' then Merged(acc'[c], from) else from == {}
  {
    var was, from, acc' := MatchedBy(f, seen, topic, c), MatchedBy(f, seen + {p}, topic, c), Gathered(acc, At(f, p).subs, topic);
    MatchingNext(f, seen, topic, p, c);
    assert if c in acc then Merged(acc[c], was) else was == {};
    if Visible(f, p, topic, c) {
      var n := f[p].subs[c];
      assert acc'[c] == Merge(if c in acc then acc[c] else n, n);
      if c in acc {
        MergeNext(acc[c], was, n);
      } else {
        MergeFirst(n);
        assert from == {n};
      }
    } else {
      assert c in acc' <==> c in acc;
    }
  }

  // ---------------------------------------------------------------- shared and inline subscriptions

  type Offer = (string, Subscription) // a client and its shared subscription

  ghost function MemberOffers(members: map<string, Subscription>): (r: set<Offer>)
    ensures forall o: Offer :: o in r <==> o.0 in members && members[o.0] == o.1
  {
    set c | c in members :: (c, members[c])
  }

  ghost function NodeOffers(n: Node): set<Offer> {
    set g, c | g in n.shared && c in n.shared[g] :: (c, n.shared[g][c])
  }

  ghost function Offers(f: Trie, seen: set<Path>): set<Offer> {
    set p, o | p in seen && o in NodeOffers(At(f, p)) :: o
  }

  type Listing = map<string, map<string, Subscription>> // by filter, then client

  ghost predicate Listed(acc: Listing, o: Offer) {
    o.1.filter in acc && o.0 in acc[o.1.filter] && acc[o.1.filter][o.0] == o.1
  }

  ghost predicate Offered(acc: Listing, offers: set<Offer>, flt: string, c: string) {
    flt in acc && c in acc[flt] ==> acc[flt][c].filter == flt && (c, acc[flt][c]) in offers
  }

  /** Shared subscriptions are listed by filter and then by client, and nothing else is. */
  ghost predicate CollectsShared(acc: Listing, offers: set<Offer>) {
    && (forall o {:trigger Listed(acc, o)} | o in offers :: Listed(acc, o))
    && (forall flt {:trigger acc[flt]} | flt in acc :: acc[flt] != map[])
    && (forall flt, c {:trigger Offered(acc, offers, flt, c)} :: Offered(acc, offers, flt, c))
  }

  function PutShared(acc: Listing, c: string, sub: Subscription): Listing {
    var members := if sub.filter in acc then acc[sub.filter] else map[];
    acc[sub.filter := members[c := sub]]
  }

  /** No client is offered twice for the same filter. */
  ghost predicate Unambiguous(offers: set<Offer>) {
    forall o <- offers, o' <- offers :: o.0 == o'.0 && o.1.filter == o'.1.filter ==> o == o'
  }

  lemma PutSharedCollects(acc: Listing, offers: set<Offer>, c: string, sub: Subscription)
    requires CollectsShared(acc, offers) && Unambiguous(offers + {(c, sub)})
    ensures CollectsShared(PutShared(acc, c, sub), offers + {(c, sub)})
  {
    var acc', all := PutShared(acc, c, sub), offers + {(c, sub)};
    forall o {:trigger Listed(acc', o)} | o in all ensures Listed(acc', o) {
      assert (c, sub) in all;
      assert o in offers ==> Listed(acc, o);
    }
    assert c in acc'[sub.filter];
    forall flt, d {:trigger Offered(acc', all, flt, d)} ensures Offered(acc', all, flt, d) {
      assert Offered(acc, offers, flt, d);
    }
  }

  ghost predicate CollectsInline(acc: map<int, Subscription>, f: Trie, seen: set<Path>) {
    && (forall p <- seen, id <- At(f, p).inline :: id in acc)
    && (forall id <- acc :: exists p <- seen :: id in At(f, p).inline && At(f, p).inline[id] == acc[id])
  }

  lemma InlineCollects(acc: map<int, Subscription>, f: Trie, seen: set<Path>, p: Path)
    requires CollectsInline(acc, f, seen)
    ensures CollectsInline(acc + At(f, p).inline, f, seen + {p})
  {
  }

  // ---------------------------------------------------------------- picking share members

  ghost predicate WellListed(shared: Listing) {
    && (forall flt <- shared :: shared[flt] != map[])
    && (forall flt <- shared, c <- shared[flt] :: shared[flt][c].filter == flt && shared[flt][c].identifiers == None)
  }

  ghost predicate Picks(shared: Listing, choice: map<string, string>, flt: string, client: string) {
    flt in choice && choice[flt] == client && flt in shared && client in shared[flt]
  }

  ghost function PickedFor(shared: Listing, choice: map<string, string>, client: string): set<Subscription> {
    set flt | flt in choice && Picks(shared, choice, flt, client) :: shared[flt][client]
  }

  /** Exactly the chosen members are selected, with the options of what they were chosen for. */
  ghost predicate Picked(selected: map<string, Subscription>, shared: Listing, choice: map<string, string>) {
    forall c {:trigger c in selected} {:trigger PickedFor(shared, choice, c)} ::
      var from := PickedFor(shared, choice, c);
      if c in selected then Merged(selected[c], from) else from == {}
  }

  type Pick = (string, string) // a filter and the client picked for it

  /** The filter that `client` was first picked for. */
  function FirstPick(picks: seq<Pick>, client: string): Option<string> {
    if picks == [] then None
    else
      var n := |picks| - 1;
      var first := FirstPick(picks[..n], client);
      if first.Some? then first else if picks[n].1 == client then Some(picks[n].0) else None
  }

  /** The picks made one after the other, each filter once, are those of `choice`. */
  ghost predicate PicksOf(picks: seq<Pick>, choice: map<string, string>) {
    && (forall k <- picks :: k.0 in choice && choice[k.0] == k.1) && |picks| == |choice|
    && forall i, j :: 0 <= i < j < |picks| ==> picks[i].0 != picks[j].0
  }

  ghost predicate FirstIs(picks: seq<Pick>, selected: map<string, Subscription>, c: string) {
    FirstPick(picks, c) == if c in selected then Some(selected[c].filter) else None
  }

  /** The picks made one after the other are those of `choice`, and each selected member
      carries the filter it was first picked for. */
  ghost predicate PickedInTurn(picks: seq<Pick>, choice: map<string, string>, selected: map<string, Subscription>) {
    PicksOf(picks, choice) && forall c :: FirstIs(picks, selected, c)
  }

  lemma PickedInTurnNext(picks: seq<Pick>, choice: map<string, string>, selected: map<string, Subscription>,
                         flt: string, client: string, sub: Subscription)
    requires PickedInTurn(picks, choice, selected) && flt !in choice && sub.filter == flt
    ensures PickedInTurn(picks + [(flt, client)], choice[flt := client],
                         selected[client := Merge(if client in selected then selected[client] else sub, sub)])
  {
    assert (picks + [(flt, client)])[..|picks|] == picks;
    var selected' := selected[client := Merge(if client in selected then selected[client] else sub, sub)];
    forall c ensures FirstIs(picks + [(flt, client)], selected', c) { assert FirstIs(picks, selected, c); }
  }

  /** A member is chosen for every filter that is not `left`. */
  ghost predicate Chooses(choice: map<string, string>, shared: Listing, left: set<string>) {
    choice.Keys == shared.Keys - left && forall flt <- choice :: choice[flt] in shared[flt]
  }

  lemma ChooseNext(choice: map<string, string>, shared: Listing, left: set<string>, flt: string, client: string)
    requires Chooses(choice, shared, left) && flt in left && flt in shared && client in shared[flt]
    ensures Chooses(choice[flt := client], shared, left - {flt})
  {
  }

  lemma PickNext(selected: map<string, Subscription>, shared: Listing, choice: map<string, string>, flt: string, client: string)
    requires WellListed(shared) && Picked(selected, shared, choice)
    requires flt in shared && client in shared[flt] && flt !in choice
    ensures var sub := shared[flt][client];
            Picked(selected[client := Merge(if client in selected then selected[client] else sub, sub)], shared, choice[flt := client])
  {
    var sub, choice' := shared[flt][client], choice[flt := client];
    var selected' := selected[client := Merge(if client in selected then selected[client] else sub, sub)];
    forall c ensures var from := PickedFor(shared, choice', c); if c in selected' then Merged(selected'[c], from) else from == {} {
      if c == client {
        PickedGrows(shared, choice, flt, client);
        PickMerges(selected, shared, choice, flt, client);
      } else {
        OthersUnpicked(shared, choice, flt, client, c);
        assert c in selected' <==> c in selected;
      }
    }
  }

  function WithPick(selected: map<string, Subscription>, client: string, sub: Subscription): map<string, Subscription> {
    selected[client := Merge(if client in selected then selected[client] else sub, sub)]
  }

  /** One member has been picked for every filter that is not `left`. */
  ghost predicate Selecting(selected: map<string, Subscription>, shared: Listing, choice: map<string, string>, picks: seq<Pick>,
                            left: set<string>) {
    Chooses(choice, shared, left) && Picked(selected, shared, choice) && PickedInTurn(picks, choice, selected)
  }

  lemma SelectNext(selected: map<string, Subscription>, shared: Listing, choice: map<string, string>, picks: seq<Pick>,
                   left: set<string>, flt: string, client: string)
    requires WellListed(shared) && Selecting(selected, shared, choice, picks, left)
    requires flt in left && flt in shared && client in shared[flt]
    ensures Selecting(WithPick(selected, client, shared[flt][client]), shared, choice[flt := client],
                      picks + [(flt, client)], left - {flt})
  {
    PickNext(selected, shared, choice, flt, client);
    ChooseNext(choice, shared, left, flt, client);
    PickedInTurnNext(picks, choice, selected, flt, client, shared[flt][client]);
  }

  lemma PickMerges(selected: map<string, Subscription>, shared: Listing, choice: map<string, string>, flt: string, client: string)
    requires WellListed(shared) && Picked(selected, shared, choice)
    requires flt in shared && client in shared[flt] && flt !in choice
    ensures var sub := shared[flt][client];
            Merged(Merge(if client in selected then selected[client] else sub, sub), PickedFor(shared, choice, client) + {sub})
  {
    var sub, was := shared[flt][client], PickedFor(shared, choice, client);
    assert if client in selected then Merged(selected[client], was) else was == {};
    if client in selected {
      forall s <- was ensures s.filter != flt {
        var x :| x in choice && Picks(shared, choice, x, client) && s == shared[x][client];
      }
      MergeNext(selected[client], was, sub);
    } else {
      assert was + {sub} == {sub};
      MergeFirst(sub);
    }
  }

  lemma PickedGrows(shared: Listing, choice: map<string, string>, flt: string, client: string)
    requires flt in shared && client in shared[flt] && flt !in choice
    ensures PickedFor(shared, choice[flt := client], client) == PickedFor(shared, choice, client) + {shared[flt][client]}
  {
  }

  lemma OthersUnpicked(shared: Listing, choice: map<string, string>, flt: string, client: string, c: string)
    requires flt !in choice && c != client
    ensures PickedFor(shared, choice[flt := client], c) == PickedFor(shared, choice, c)
  {
  }

  /** Picked members without subscriptions of their own are merged with themselves. */
  lemma MergeSelf(r: Subscription, from: set<Subscription>)
    requires Merged(r, from)
    ensures Merged(Merge(r, r), from)
  {
  }

  /** Joining a picked member to the client's own subscriptions keeps every option except
      identifiers: of those, only the one of the filter it was first picked for. */
  lemma JoinedIdentifiers(own: Subscription, plain: set<Subscription>, picked: Subscription, from: set<Subscription>)
    requires Merged(own, plain) && Merged(picked, from)
    requires forall s <- plain + from, s' <- plain + from :: s.filter == s'.filter ==> s == s'
    requires plain !! from
    ensures Merged(Merge(own, picked), plain + from) <==> forall s <- from :: s.identifier > 0 ==> s.filter == picked.filter
  {
    if s :| s in from && s.identifier > 0 && s.filter != picked.filter {
      IdentifierLost(own, plain, picked, from, s);
    } else {
      JoinedOptions(own, plain, picked, from);
      IdentifiersKept(own, plain, picked, from);
    }
  }

  lemma IdentifierLost(own: Subscription, plain: set<Subscription>, picked: Subscription, from: set<Subscription>, s: Subscription)
    requires Merged(own, plain)
    requires s in from && s !in plain && s.identifier > 0 && s.filter != picked.filter
    requires forall s' <- plain :: s.filter == s'.filter ==> s == s'
    ensures !Merged(Merge(own, picked), plain + from)
  {
  }

  lemma IdentifiersKept(own: Subscription, plain: set<Subscription>, picked: Subscription, from: set<Subscription>)
    requires Merged(own, plain) && Merged(picked, from)
    requires forall s <- plain + from, s' <- plain + from :: s.filter == s'.filter ==> s == s'
    requires forall s <- from :: s.identifier > 0 ==> s.filter == picked.filter
    ensures var ids := Merge(own, picked).identifiers.value;
            && (forall s <- plain + from :: s.identifier > 0 ==> s.filter in ids && ids[s.filter] == s.identifier)
            && (forall flt <- ids :: ids[flt] > 0 ==> exists s <- plain + from :: s.filter == flt && s.identifier == ids[flt])
  {
  }

  /** `r` has the highest QoS and any NoLocal of `from`. */
  ghost predicate OptionsMerged(r: Subscription, from: set<Subscription>) {
    && (exists s <- from :: r.filter == s.filter && r.identifier == s.identifier)
    && (forall s <- from :: s.qos <= r.qos) && (exists s <- from :: s.qos == r.qos)
    && (r.noLocal <==> exists s <- from :: s.noLocal)
  }

  lemma JoinedOptions(own: Subscription, plain: set<Subscription>, picked: Subscription, from: set<Subscription>)
    requires Merged(own, plain) && Merged(picked, from)
    ensures OptionsMerged(Merge(own, picked), plain + from)
  {
  }

  /** What a recipient is served with, given its own matching subscriptions and those it was
      picked for, `first` of all for one filter: options over all of them, and every identifier
      unless it has both kinds and was picked for a positive one under another filter. */
  ghost predicate ServedWith(r: Subscription, plain: set<Subscription>, from: set<Subscription>, first: Option<string>) {
    if plain == {} || from == {} then Merged(r, plain + from)
    else
      && OptionsMerged(r, plain + from)
      && first.Some? && (Merged(r, plain + from) <==> forall s <- from :: s.identifier > 0 ==> s.filter == first.value)
  }

  lemma JoinedServed(own: Subscription, plain: set<Subscription>, picked: Subscription, from: set<Subscription>)
    requires Merged(own, plain) && Merged(picked, from) && plain !! from
    requires forall s <- plain + from, s' <- plain + from :: s.filter == s'.filter ==> s == s'
    ensures ServedWith(Merge(own, picked), plain, from, Some(picked.filter))
  {
    JoinedOptions(own, plain, picked, from);
    JoinedIdentifiers(own, plain, picked, from);
  }
}
