/** A client reconnects under the same id (`inheritClientSession`): its messages in flight,
    its send window and its subscriptions pass to the new connection. */
module Takeover {
  import opened InflightWindow
  import opened InflightStore
  import opened Handlers
  import opened Broker
  import opened Levels
  import opened TrieContents
  import opened TopicTable
  import opened TopicIndex
  import opened Topics
  import opened History

  type Subscriptions = map<string, Subscription> // by filter

  // ---------------------------------------------------------------- the send window

  /** `ParseConnect`: the window a connection starts with. */
  function OwnWindow(version: nat, receiveMaximum: nat, serverReceiveMax: nat): Window {
    var max := if version >= 5 then receiveMaximum else serverReceiveMax;
    Window(map[], max, max, serverReceiveMax, serverReceiveMax)
  }

  /** The new client's Receive Maximum, or the server's when it gave none. */
  function NewCap(receiveMaximum: nat, serverReceiveMax: nat): nat {
    if receiveMaximum == 0 then serverReceiveMax else receiveMaximum
  }

  /** After a takeover the window is the new cap less what is still unacknowledged, unless a
      version 5 client without a Receive Maximum finds nothing in flight: its window is then
      zero, which turns the quota gate off. */
  lemma InheritedQuota(existing: Window, version: nat, receiveMaximum: nat, serverReceiveMax: nat)
    requires version < 5 ==> receiveMaximum == 0
    requires NewCap(receiveMaximum, serverReceiveMax) > 0
    ensures var cap := NewCap(receiveMaximum, serverReceiveMax);
            var w := Inherited(existing, OwnWindow(version, receiveMaximum, serverReceiveMax), receiveMaximum, serverReceiveMax);
            && w.internal == existing.internal
            && (existing.internal == map[] ==> w.receiveQuota == serverReceiveMax == w.maxReceive)
            && (existing.internal != map[] && existing.maxReceive != 0 ==>
                  w.receiveQuota == existing.receiveQuota && w.maxReceive == existing.maxReceive)
            && (existing.internal != map[] && existing.maxReceive == 0 && serverReceiveMax != 0 ==>
                  w.receiveQuota == serverReceiveMax == w.maxReceive)
            && ((w.maxSend == cap && w.sendQuota == existing.Rest(cap)) <==>
                  !(existing.internal == map[] && version >= 5 && receiveMaximum == 0))
  {
  }

  // ---------------------------------------------------------------- the subscription table

  /** The index holds what the client's own table says, for every filter in it. */
  ghost predicate Mirrors(at: string -> Place, f: Trie, id: string, subs: Subscriptions) {
    forall flt <- subs :: subs[flt].filter == flt && subs[flt].identifiers == None
                          && Held(At(f, at(flt).path), id, at(flt)) == Some(subs[flt])
  }

  /** Subscribing again with what is already held changes nothing. */
  lemma RejoinChangesNothing(f: Trie, id: string, place: Place, sub: Subscription)
    requires Held(At(f, place.path), id, place) == Some(sub)
    ensures With(f, place.path, Joined(At(f, place.path), id, place, sub)) == f
    ensures Holds(At(f, place.path), id, place) && place.path in f
  {
    var n := At(f, place.path);
    match place
    case Plain(_) =>
      assert n.subs[id := sub] == n.subs;
    case Shared(g, _) =>
      assert n.shared[g][id := sub] == n.shared[g];
      assert n.shared[g := n.shared[g]] == n.shared;
  }

  /** `f'` is `f` without what `id` held at the places of `filters`. */
  ghost predicate Without(at: string -> Place, f: Trie, f': Trie, id: string, filters: set<string>) {
    forall c: string, place: Place {:trigger Held(At(f', place.path), c, place)} ::
      Held(At(f', place.path), c, place) ==
        if c == id && exists flt <- filters :: at(flt) == place then None else Held(At(f, place.path), c, place)
  }

  lemma WithoutMore(at: string -> Place, f: Trie, f': Trie, id: string, filters: set<string>, flt: string)
    requires Without(at, f, f', id, filters)
    ensures Without(at, f, With(f', at(flt).path, Departed(At(f', at(flt).path), id, at(flt))), id, filters + {flt})
  {
    var f'' := With(f', at(flt).path, Departed(At(f', at(flt).path), id, at(flt)));
    forall c: string, place: Place {:trigger Held(At(f'', place.path), c, place)}
      ensures Held(At(f'', place.path), c, place) ==
        if c == id && exists g <- filters + {flt} :: at(g) == place then None else Held(At(f, place.path), c, place)
    {
      HeldAfterLeave(f', c, place, id, at(flt));
      assert Held(At(f', place.path), c, place) ==
             if c == id && exists g <- filters :: at(g) == place then None else Held(At(f, place.path), c, place);
      assert (exists g <- filters + {flt} :: at(g) == place) <==> at(flt) == place || exists g <- filters :: at(g) == place;
    }
  }

  /** The filters not yet removed are still held, since each has a place of its own. */
  lemma StillHeld(at: string -> Place, f: Trie, f': Trie, id: string, subs: Subscriptions, gone: set<string>, flt: string)
    requires Mirrors(at, f, id, subs) && Without(at, f, f', id, gone) && gone <= subs.Keys && flt in subs && flt !in gone
    ensures at(flt).path in f'
  {
    forall g <- gone ensures at(g) != at(flt) { assert subs[g].filter == g; }
    assert Held(At(f', at(flt).path), id, at(flt)) == Some(subs[flt]);
  }

  ghost predicate Agrees(f: Trie, id: string, subs: Subscriptions) { Mirrors(PlaceOf, f, id, subs) }

  ghost predicate Removed(f: Trie, f': Trie, id: string, filters: set<string>) { Without(PlaceOf, f, f', id, filters) }

  lemma RemovedMore(f: Trie, f': Trie, id: string, subs: Subscriptions, left: set<string>, flt: string)
    requires Agrees(f, id, subs) && Removed(f, f', id, subs.Keys - left) && left <= subs.Keys && flt in left
    ensures var place := PlaceOf(flt);
            && Removed(f, With(f', place.path, Departed(At(f', place.path), id, place)), id, subs.Keys - (left - {flt}))
            && exists q :: q in f' && place.path <= q
  {
    var gone := subs.Keys - left;
    assert gone + {flt} == subs.Keys - (left - {flt});
    StillHeld(PlaceOf, f, f', id, subs, gone, flt);
    WithoutMore(PlaceOf, f, f', id, gone, flt);
    assert PlaceOf(flt).path in f' && PlaceOf(flt).path <= PlaceOf(flt).path;
  }

  lemma RemovedNone(f: Trie, id: string, subs: Subscriptions)
    ensures Removed(f, f, id, subs.Keys - subs.Keys) && subs.Keys - {} == subs.Keys
  {
  }

  /** The table a client keeps of its own subscriptions, along a history of the index. */
  function OwnTable(ops: seq<Op>, id: string): Subscriptions {
    if ops == [] then map[]
    else
      var before := OwnTable(ops[..|ops| - 1], id);
      match ops[|ops| - 1]
      case Subscribe(c, sub) => if c == id then before[sub.filter := sub] else before
      case Unsubscribe(c, filter) => if c == id then before - {filter} else before
      case _ => before
  }

  predicate IsUnshared(op: Op) {
    (op.Subscribe? ==> PlaceOf(op.sub.filter).Plain?) && (op.Unsubscribe? ==> PlaceOf(op.filter).Plain?)
  }

  lemma PlainPlacesDiffer(a: string, b: string)
    requires PlaceOf(a).Plain? && PlaceOf(a) == PlaceOf(b)
    ensures a == b
  {
    PlainPath(a);
    PlainPath(b);
    SplitInjective(a, b);
  }

  lemma {:induction false} OwnTableIsLastWord(ops: seq<Op>, id: string, flt: string)
    requires (forall op <- ops :: IsUnshared(op)) && PlaceOf(flt).Plain?
    ensures LastWord(ops, id, PlaceOf(flt)) == if flt in OwnTable(ops, id) then Some(OwnTable(ops, id)[flt]) else None
    ensures flt in OwnTable(ops, id) ==> OwnTable(ops, id)[flt].filter == flt
  {
    if ops != [] {
      OwnTableIsLastWord(ops[..|ops| - 1], id, flt);
      var op := ops[|ops| - 1];
      assert IsUnshared(op);
      match op
      case Subscribe(c, sub) =>
        if PlaceOf(sub.filter) == PlaceOf(flt) { PlainPlacesDiffer(sub.filter, flt); }
      case Unsubscribe(c, filter) =>
        if PlaceOf(filter) == PlaceOf(flt) { PlainPlacesDiffer(filter, flt); }
      case _ =>
    }
  }

  lemma {:induction false} OwnTableIsPlain(ops: seq<Op>, id: string)
    requires forall op <- ops :: IsUnshared(op) && IsProper(op)
    ensures forall flt <- OwnTable(ops, id) :: PlaceOf(flt).Plain? && OwnTable(ops, id)[flt].identifiers == None
  {
    if ops != [] {
      OwnTableIsPlain(ops[..|ops| - 1], id);
      assert IsUnshared(ops[|ops| - 1]) && IsProper(ops[|ops| - 1]);
    }
  }

  /** Over every history of unshared subscriptions, a client's table agrees with the index. */
  lemma TableAgrees(ops: seq<Op>, id: string)
    requires forall op <- ops :: IsUnshared(op) && IsProper(op)
    ensures Agrees(After(ops).table, id, OwnTable(ops, id))
  {
    OwnTableIsPlain(ops, id);
    forall flt <- OwnTable(ops, id)
      ensures OwnTable(ops, id)[flt].filter == flt
      ensures Held(At(After(ops).table, PlaceOf(flt).path), id, PlaceOf(flt)) == Some(OwnTable(ops, id)[flt])
    {
      OwnTableIsLastWord(ops, id, flt);
      TableIsLastWord(ops, id, PlaceOf(flt));
    }
  }

  // ---------------------------------------------------------------- sessions

  class Session {
    const id: string
    const client: Client
    const clean: bool
    const receiveMaximum: nat
    var subscriptions: Subscriptions
    var takenOver: bool

    constructor (id: string, client: Client, clean: bool, receiveMaximum: nat)
      ensures this.id == id && this.client == client && this.clean == clean && this.receiveMaximum == receiveMaximum
      ensures subscriptions == map[] && !takenOver
    {
      this.id, this.client, this.clean, this.receiveMaximum := id, client, clean, receiveMaximum;
      subscriptions, takenOver := map[], false;
    }
  }

  /** Drops the client's table and, unless another connection has taken it over, its entries
      in the index. */
  method UnsubscribeClient(x: TopicsIndex, s: Session, gauge: int) returns (gauge': int)
    requires x.Valid() && (s.takenOver || Agrees(x.Table(), s.id, s.subscriptions))
    modifies s`subscriptions, x`sh, x.sh.repr
    ensures x.Valid() && x.sh.repr == old(x.sh).repr && s.subscriptions == map[]
    ensures s.takenOver ==> x.Table() == old(x.Table()) && gauge' == gauge
    ensures !s.takenOver ==> Removed(old(x.Table()), x.Table(), s.id, old(s.subscriptions).Keys)
    ensures !s.takenOver ==> gauge' == gauge - |old(s.subscriptions)|
  {
    var filters := s.subscriptions;
    s.subscriptions := map[];
    if s.takenOver {
      return gauge;
    }
    gauge' := RemoveAll(x, s.id, filters, gauge);
  }

  method RemoveAll(x: TopicsIndex, id: string, subs: Subscriptions, gauge: int) returns (gauge': int)
    requires x.Valid() && Agrees(x.Table(), id, subs)
    modifies x`sh, x.sh.repr
    ensures x.Valid() && x.sh.repr == old(x.sh).repr
    ensures Removed(old(x.Table()), x.Table(), id, subs.Keys)
    ensures gauge' == gauge - |subs|
  {
    gauge' := gauge;
    var left := subs.Keys;
    RemovedNone(x.Table(), id, subs);
    while left != {}
      invariant x.Valid() && x.sh.repr == old(x.sh).repr
      invariant left <= subs.Keys && gauge' == gauge - |subs| + |left|
      invariant Removed(old(x.Table()), x.Table(), id, subs.Keys - left)
      decreases left
    {
      var flt :| flt in left;
      gauge' := RemoveNext(x, id, subs, left, flt, gauge', old(x.Table()));
      left := left - {flt};
    }
  }

  method RemoveNext(x: TopicsIndex, id: string, subs: Subscriptions, left: set<string>, flt: string, gauge: int, ghost f: Trie)
      returns (gauge': int)
    requires x.Valid() && Agrees(f, id, subs) && Removed(f, x.Table(), id, subs.Keys - left) && flt in left && left <= subs.Keys
    modifies x`sh, x.sh.repr
    ensures x.Valid() && x.sh.repr == old(x.sh).repr
    ensures Removed(f, x.Table(), id, subs.Keys - (left - {flt})) && gauge' == gauge - 1
  {
    RemovedMore(f, x.Table(), id, subs, left, flt);
    var existed := x.Unsubscribe(flt, id);
    gauge' := if existed then gauge - 1 else gauge;
  }

  method Resubscribe(x: TopicsIndex, cl: Session, sub: Subscription, gauge: int) returns (gauge': int)
    requires x.Valid() && sub.identifiers == None
    modifies cl`subscriptions, x`sh, x.sh.repr
    ensures x.Valid() && (forall o <- x.sh.repr :: o in old(x.sh).repr || fresh(o))
    ensures var place := PlaceOf(sub.filter); var was := At(old(x.Table()), place.path);
            && x.Table() == With(old(x.Table()), place.path, Joined(was, cl.id, place, sub))
            && gauge' == (if Holds(was, cl.id, place) then gauge else gauge + 1)
    ensures cl.subscriptions == old(cl.subscriptions)[sub.filter := sub]
  {
    cl.subscriptions := cl.subscriptions[sub.filter := sub];
    var isNew := x.Subscribe(cl.id, sub);
    gauge' := if isNew then gauge + 1 else gauge;
  }

  /** The next subscription to copy is in the index already, under the same client id. */
  method CopyNext(x: TopicsIndex, cl: Session, subs: Subscriptions, left: set<string>, flt: string, gauge: int) returns (gauge': int)
    requires x.Valid() && Agrees(x.Table(), cl.id, subs) && flt in left && left <= subs.Keys && cl.subscriptions == subs - left
    modifies cl`subscriptions, x`sh, x.sh.repr
    ensures x.Valid() && (forall o <- x.sh.repr :: o in old(x.sh).repr || fresh(o))
    ensures x.Table() == old(x.Table()) && cl.subscriptions == subs - (left - {flt}) && gauge' == gauge
  {
    Rejoin(x.Table(), cl.id, subs, flt);
    TakeAway(subs, left, flt);
    gauge' := Resubscribe(x, cl, subs[flt], gauge);
  }

  /** Subscribes the new connection to everything the old one was subscribed to. */
  method CopySubscriptions(x: TopicsIndex, cl: Session, subs: Subscriptions, gauge: int) returns (gauge': int)
    requires x.Valid() && Agrees(x.Table(), cl.id, subs) && cl.subscriptions == map[]
    modifies cl`subscriptions, x`sh, x.sh.repr
    ensures x.Valid() && (forall o <- x.sh.repr :: o in old(x.sh).repr || fresh(o))
    ensures x.Table() == old(x.Table()) && cl.subscriptions == subs && gauge' == gauge
  {
    gauge' := gauge;
    var left := subs.Keys;
    TakeNone(subs);
    while left != {}
      invariant x.Valid() && (forall o <- x.sh.repr :: o in old(x.sh).repr || fresh(o))
      invariant left <= subs.Keys && x.Table() == old(x.Table()) && cl.subscriptions == subs - left && gauge' == gauge
      decreases left
    {
      var flt :| flt in left;
      gauge' := CopyNext(x, cl, subs, left, flt, gauge');
      left := left - {flt};
    }
  }

  lemma TakeNone(subs: Subscriptions)
    ensures subs - subs.Keys == map[] && subs - {} == subs
  {
  }

  lemma Rejoin(f: Trie, id: string, subs: Subscriptions, flt: string)
    requires Agrees(f, id, subs) && flt in subs
    ensures var place := PlaceOf(subs[flt].filter);
            && subs[flt].filter == flt && subs[flt].identifiers == None && Holds(At(f, place.path), id, place)
            && With(f, place.path, Joined(At(f, place.path), id, place, subs[flt])) == f
  {
    RejoinChangesNothing(f, id, PlaceOf(flt), subs[flt]);
  }

  lemma TakeAway(subs: Subscriptions, left: set<string>, flt: string)
    requires flt in left && left <= subs.Keys
    ensures (subs - left)[flt := subs[flt]] == subs - (left - {flt})
  {
  }

  /** The messages in flight move: a clone, fitted to the new connection, and nothing left. */
  method MoveInflight(existing: Client, cl: Client, receiveMaximum: nat, serverReceiveMax: nat)
    requires existing != cl && existing.inflight != cl.inflight && existing.inflight.View().Keyed()
    modifies cl`inflight, existing.inflight
    ensures existing.inflight.View() == old(existing.inflight.View()).(internal := map[])
    ensures cl.inflight.View() == Inherited(old(existing.inflight.View()), old(cl.inflight.View()), receiveMaximum, serverReceiveMax)
  {
    if |existing.inflight.internal| > 0 {
      var clone := existing.inflight.Clone();
      clone.ReconcileSendQuotaCap(if receiveMaximum == 0 then serverReceiveMax else receiveMaximum);
      if clone.maximumReceiveQuota == 0 && serverReceiveMax != 0 {
        clone.ResetReceiveQuota(serverReceiveMax);
      }
      cl.inflight := clone;
    }
    existing.ResetInflights();
  }

  /** A clean start, or an old session that was clean: everything is dropped. */
  method AbandonSession(x: TopicsIndex, existing: Session, subGauge: int, inflightGauge: int) returns (subGauge': int, inflightGauge': int)
    requires x.Valid() && !existing.takenOver
    requires Agrees(x.Table(), existing.id, existing.subscriptions) && existing.client.inflight.View().Keyed()
    modifies existing, existing.client.inflight, x`sh, x.sh.repr
    ensures x.Valid() && existing.takenOver && existing.subscriptions == map[]
    ensures existing.client.inflight.View() == old(existing.client.inflight.View()).(internal := map[])
    ensures Removed(old(x.Table()), x.Table(), existing.id, old(existing.subscriptions).Keys)
    ensures subGauge' == subGauge - |old(existing.subscriptions)|
    ensures inflightGauge' == inflightGauge - old(existing.client.inflight.View()).Counted()
  {
    inflightGauge' := existing.client.ClearInflights(inflightGauge);
    subGauge' := UnsubscribeClient(x, existing, subGauge);
    existing.takenOver := true;
  }

  method MoveSubscriptions(x: TopicsIndex, existing: Session, cl: Session, subGauge: int) returns (subGauge': int)
    requires x.Valid() && existing != cl && existing.id == cl.id && cl.subscriptions == map[]
    requires Agrees(x.Table(), existing.id, existing.subscriptions)
    modifies existing, cl`subscriptions, x`sh, x.sh.repr
    ensures x.Valid() && x.Table() == old(x.Table()) && existing.takenOver
    ensures existing.subscriptions == map[] && cl.subscriptions == old(existing.subscriptions) && subGauge' == subGauge
  {
    existing.takenOver := true;
    subGauge' := CopySubscriptions(x, cl, existing.subscriptions, subGauge);
    subGauge' := UnsubscribeClient(x, existing, subGauge');
  }

  method ContinueSession(x: TopicsIndex, existing: Session, cl: Session, serverReceiveMax: nat, subGauge: int) returns (subGauge': int)
    requires x.Valid() && existing != cl && existing.id == cl.id && cl.subscriptions == map[]
    requires existing.client != cl.client && existing.client.inflight != cl.client.inflight
    requires Agrees(x.Table(), existing.id, existing.subscriptions) && existing.client.inflight.View().Keyed()
    modifies existing, cl`subscriptions, cl.client`inflight, existing.client.inflight, x`sh, x.sh.repr
    ensures x.Valid() && existing.takenOver && existing.subscriptions == map[]
    ensures existing.client.inflight.View() == old(existing.client.inflight.View()).(internal := map[])
    ensures cl.client.inflight.View() ==
              Inherited(old(existing.client.inflight.View()), old(cl.client.inflight.View()), cl.receiveMaximum, serverReceiveMax)
    ensures cl.subscriptions == old(existing.subscriptions) && x.Table() == old(x.Table()) && subGauge' == subGauge
  {
    MoveInflight(existing.client, cl.client, cl.receiveMaximum, serverReceiveMax);
    subGauge' := MoveSubscriptions(x, existing, cl, subGauge);
  }

  /** Whether the session continues; either way the old connection is left with nothing. */
  method InheritClientSession(x: TopicsIndex, existing: Session, cl: Session, clean: bool, serverReceiveMax: nat,
                              subGauge: int, inflightGauge: int)
      returns (present: bool, subGauge': int, inflightGauge': int)
    requires x.Valid() && existing != cl && existing.id == cl.id && !existing.takenOver && cl.subscriptions == map[]
    requires existing.client != cl.client && existing.client.inflight != cl.client.inflight
    requires Agrees(x.Table(), existing.id, existing.subscriptions) && existing.client.inflight.View().Keyed()
    modifies existing, cl`subscriptions, cl.client`inflight, existing.client.inflight, x`sh, x.sh.repr
    ensures x.Valid() && (present <==> !clean && !(existing.clean && existing.client.version < 5))
    ensures existing.takenOver && existing.subscriptions == map[] && existing.client.inflight == old(existing.client.inflight)
    ensures existing.client.inflight.View() == old(existing.client.inflight.View()).(internal := map[])
    ensures present ==>
      && cl.client.inflight.View() ==
              Inherited(old(existing.client.inflight.View()), old(cl.client.inflight.View()), cl.receiveMaximum, serverReceiveMax)
      && cl.subscriptions == old(existing.subscriptions)
      && x.Table() == old(x.Table()) && subGauge' == subGauge && inflightGauge' == inflightGauge
    ensures !present ==>
      && cl.client.inflight.View() == old(cl.client.inflight.View()) && cl.subscriptions == map[]
      && Removed(old(x.Table()), x.Table(), existing.id, old(existing.subscriptions).Keys)
      && subGauge' == subGauge - |old(existing.subscriptions)|
      && inflightGauge' == inflightGauge - old(existing.client.inflight.View()).Counted()
  {
    if clean || (existing.clean && existing.client.version < 5) {
      subGauge', inflightGauge' := AbandonSession(x, existing, subGauge, inflightGauge);
      return false, subGauge', inflightGauge';
    }
    subGauge' := ContinueSession(x, existing, cl, serverReceiveMax, subGauge);
    return true, subGauge', inflightGauge;
  }
}
