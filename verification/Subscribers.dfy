/** The subscribers found for a topic, gathered particle by particle. */
module Subscribers {
  import opened TrieContents
  import opened Delivery

  class Subscribers {
    var shared: Listing                                       // by filter, then client
    var sharedSelected: map<string, Subscription>         // by client
    var subscriptions: map<string, Subscription>          // by client
    var inlineSubscriptions: map<int, Subscription>

    constructor ()
      ensures shared == map[] && sharedSelected == map[] && subscriptions == map[] && inlineSubscriptions == map[]
    {
      shared, sharedSelected, subscriptions, inlineSubscriptions := map[], map[], map[], map[];
    }

    method GatherSubscriptions(topic: string, subs: map<string, Subscription>)
      modifies this`subscriptions
      ensures subscriptions == Gathered(old(subscriptions), subs, topic)
      ensures forall c <- subs :: topic != "" && topic[0] == '$' && subs[c].filter != "" && subs[c].filter[0] in {'+', '#'} ==>
                if c in old(subscriptions) then c in subscriptions && subscriptions[c] == old(subscriptions)[c] else c !in subscriptions
      ensures forall c <- subs :: topic == "" || topic[0] != '$' || subs[c].filter == "" || subs[c].filter[0] !in {'+', '#'} ==>
                c in subscriptions
    {
      var left := subs.Keys;
      assert subs - left == map[] && Gathered(subscriptions, map[], topic) == subscriptions;
      while left != {}
        invariant left <= subs.Keys
        invariant subscriptions == Gathered(old(subscriptions), subs - left, topic)
        decreases |left|
      {
        var client :| client in left;
        var sub := subs[client];
        GatheredStep(old(subscriptions), subs, left, topic, client);
        left := left - {client};
        if !Hidden(topic, sub.filter) {
          var cls := if client in subscriptions then subscriptions[client] else sub;
          subscriptions := subscriptions[client := Merge(cls, sub)];
        }
      }
      assert subs - left == subs;
    }

    method GatherShared(shares: map<string, map<string, Subscription>>, ghost offers: set<Offer>, ghost n: Node)
      requires n.shared == shares && CollectsShared(shared, offers) && Unambiguous(offers + NodeOffers(n))
      modifies this`shared
      ensures CollectsShared(shared, offers + NodeOffers(n))
    {
      var left := shares.Keys;
      ghost var done := offers;
      while left != {}
        invariant left <= shares.Keys && offers <= done <= offers + NodeOffers(n)
        invariant forall g <- shares.Keys - left :: MemberOffers(shares[g]) <= done
        invariant CollectsShared(shared, done)
        decreases |left|
      {
        var g :| g in left;
        left := left - {g};
        GatherMembers(shares[g], done, offers + NodeOffers(n));
        done := done + MemberOffers(shares[g]);
      }
      assert done == offers + NodeOffers(n) by {
        forall o <- NodeOffers(n) ensures o in done {
          var g, c :| g in n.shared && c in n.shared[g] && o == (c, n.shared[g][c]);
          assert o in MemberOffers(shares[g]);
        }
      }
    }

    method GatherMembers(members: map<string, Subscription>, ghost offers: set<Offer>, ghost all: set<Offer>)
      requires CollectsShared(shared, offers) && Unambiguous(all) && offers + MemberOffers(members) <= all
      modifies this`shared
      ensures CollectsShared(shared, offers + MemberOffers(members))
    {
      var left := members.Keys;
      assert offers + MemberOffers(members - left) == offers;
      while left != {}
        invariant left <= members.Keys
        invariant CollectsShared(shared, offers + MemberOffers(members - left))
        decreases |left|
      {
        var c :| c in left;
        var sub := members[c];
        MembersStep(offers, members, left, c);
        PutSharedCollects(shared, offers + MemberOffers(members - left), c, sub);
        var listed := if sub.filter in shared then shared[sub.filter] else map[];
        shared := shared[sub.filter := listed[c := sub]];
        left := left - {c};
      }
      assert members - left == members;
    }

    method GatherInline(inline: map<int, Subscription>)
      modifies this`inlineSubscriptions
      ensures inlineSubscriptions == old(inlineSubscriptions) + inline
    {
      var left := inline.Keys;
      assert inline - left == map[];
      while left != {}
        invariant left <= inline.Keys
        invariant inlineSubscriptions == old(inlineSubscriptions) + (inline - left)
        decreases left
      {
        HasElement(left);
        var id :| id in left;
        InlineStep(old(inlineSubscriptions), inline, left, id);
        inlineSubscriptions := inlineSubscriptions[id := inline[id]];
        left := left - {id};
      }
      assert inline - left == inline;
    }

    /** Some member of the share filter is picked and its options merged over its picks. */
    method PickMember(flt: string) returns (client: string)
      requires flt in shared && shared[flt] != map[]
      modifies this`sharedSelected
      ensures client in shared[flt] && sharedSelected == WithPick(old(sharedSelected), client, shared[flt][client])
    {
      var subs := shared[flt];
      client :| client in subs;
      var cls := if client in sharedSelected then sharedSelected[client] else subs[client];
      sharedSelected := sharedSelected[client := Merge(cls, subs[client])];
    }

    /** One member is picked from each share filter. */
    method SelectShared() returns (ghost choice: map<string, string>, ghost picks: seq<Pick>)
      requires WellListed(shared)
      modifies this`sharedSelected
      ensures Selecting(sharedSelected, shared, choice, picks, {})
    {
      sharedSelected, choice, picks := map[], map[], [];
      var left := shared.Keys;
      NothingSelected(shared);
      while left != {}
        invariant left <= shared.Keys
        invariant Selecting(sharedSelected, shared, choice, picks, left)
        decreases |left|
      {
        var flt :| flt in left;
        ghost var was := sharedSelected;
        var client := PickMember(flt);
        SelectNext(was, shared, choice, picks, left, flt, client);
        choice, picks := choice[flt := client], picks + [(flt, client)];
        left := left - {flt};
      }
    }

    /** The picked members join the other subscribers; no topic hides any of them. */
    method MergeSharedSelected()
      modifies this`subscriptions
      ensures subscriptions == Gathered(old(subscriptions), sharedSelected, "")
    {
      GatherSubscriptions("", sharedSelected);
    }
  }

  lemma NothingSelected(shared: Listing)
    ensures Selecting(map[], shared, map[], [], shared.Keys)
  {
  }

  lemma HasElement(s: set<int>)
    ensures s == {} || exists x :: x in s
  {
    if forall x :: x !in s { assert s == {}; }
  }

  lemma InlineStep(acc: map<int, Subscription>, inline: map<int, Subscription>, left: set<int>, id: int)
    requires id in left && left <= inline.Keys
    ensures (acc + (inline - left))[id := inline[id]] == acc + (inline - (left - {id}))
  {
  }

  lemma MembersStep(offers: set<Offer>, members: map<string, Subscription>, left: set<string>, c: string)
    requires c in left && left <= members.Keys
    ensures offers + MemberOffers(members - (left - {c})) == offers + MemberOffers(members - left) + {(c, members[c])}
    ensures offers + MemberOffers(members - left) + {(c, members[c])} <= offers + MemberOffers(members)
  {
  }

  lemma GatheredStep(acc: map<string, Subscription>, subs: map<string, Subscription>, left: set<string>, topic: string, c: string)
    requires c in left && left <= subs.Keys
    ensures var was := Gathered(acc, subs - left, topic);
            Gathered(acc, subs - (left - {c}), topic) ==
              if Hidden(topic, subs[c].filter) then was
              else was[c := Merge(if c in was then was[c] else subs[c], subs[c])]
  {
  }
}
