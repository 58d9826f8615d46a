/** Every broker operation on a client's inflight window, taken as one step with arbitrary
    arguments: honest or dishonest acknowledgements, either protocol version, any write
    outcome. Two things hold of all of them: quotas stay in range, and the broker-wide
    inflight gauge moves by exactly the change in live entries. */
module Handlers {
  import opened Collections
  import opened InflightWindow
  import opened FlowControl

  datatype Outcome = Parked | Queued | Dropped

  datatype Handling =
    | PublishRefused
    | Publishing(c: Config, id: nat, out: Packet, outcome: Outcome, picks: seq<nat>, stopped: bool)
    | OnPuback(id: nat)
    | OnPubrec(id: nat, failed: bool, now: int, interval: int)
    | OnPubrel(id: nat, failed: bool, now: int, interval: int, written: bool)
    | OnPubcomp(id: nat)
    | OnPublish(id: nat, qos: nat, now: int, interval: int, written: bool)
    | Resuming(picks: seq<nat>, stopped: bool)
    | Resending(gone: set<nat>)
    | Expiring(now: int, maximumExpiry: int)
    | Clearing

  /** Whether an outbound publish finds the send window shut and parks. */
  predicate GateShut(c: Config, w: Window) { c.v5 && w.maxSend > 0 && w.sendQuota <= 0 }

  /** The window past the gate: a unit is taken, or before version 5 a spent window is reset. */
  function Gated(c: Config, w: Window): Window {
    if c.v5 then
      if w.maxSend > 0 then w.TakeSend() else w
    else if w.sendQuota == 0 && w.maxSend > 0 then
      w.(sendQuota := c.serverReceiveMax, maxSend := c.serverReceiveMax)
    else w
  }

  /** The window once the message is stored, with its unit of quota taken. */
  function Stored(c: Config, w: Window, out: Packet): Window {
    if c.v5 then Gated(c, w).Put(out) else Gated(c, w).Put(out).TakeSend()
  }

  function Deferral(out: Packet): Packet { out.(expiry := DEFERRED) }

  /** The QoS part of `processPublish`: the inbound exchange shares the outbound map. */
  predicate InboundConflict(w: Window, id: nat) {
    && id in w.internal
    && (w.internal[id].ptype in {Publish, Pubrec} || IsDeferred(w.internal[id]) || IsReserved(w.internal[id]))
  }

  function PublishedEffect(w: Window, id: nat, qos: nat, now: int, interval: int, written: bool): Effect {
    if w.receiveQuota == 0 || qos == 0 || (id in w.internal && w.internal[id].ptype == Pubrec) then Effect(w, 0)
    else if qos == 2 then
      if InboundConflict(w, id) then Effect(w.TakeReceive().GiveReceive(), 0)
      else Effect(w.TakeReceive().Put(BuildAck(id, Pubrec, 0, now, interval)), One(id !in w.internal))
    else Effect(if written then w.TakeReceive().GiveReceive() else w.TakeReceive(), 0)
  }

  /** Acknowledgements that only wait to be resent. */
  predicate IsTerminal(p: Packet) { IsSent(p) && p.ptype in {Puback, Pubcomp} }

  ghost function ExpiredIDs(w: Window, now: int, maximumExpiry: int): set<nat> {
    set id | id in w.internal && IsExpired(w.internal[id], now, maximumExpiry)
  }

  ghost function ExpiredHolding(w: Window, now: int, maximumExpiry: int): set<nat> {
    set id | id in w.internal && IsExpired(w.internal[id], now, maximumExpiry) && w.internal[id].qos > 0
  }

  function Min(a: int, b: int): int { if a < b then a else b }

  /** All expired entries gone, each unit they held returned, up to the window's size. */
  ghost function AfterExpiry(w: Window, now: int, maximumExpiry: int): Window {
    var returned := |ExpiredHolding(w, now, maximumExpiry)|;
    w.(internal := w.internal - ExpiredIDs(w, now, maximumExpiry),
       sendQuota := if w.sendQuota >= w.maxSend then w.sendQuota else Min(w.maxSend, w.sendQuota + returned))
  }

  ghost predicate Handles(h: Handling, w: Window, w': Window, gauge: int) {
    match h
    case PublishRefused => w' == w && gauge == 0
    case Publishing(c, id, out, outcome, picks, stopped) =>
      && id !in w.internal && out.packetID == id && out.qos > 0 && out.expiry >= 0
      && (outcome == Parked <==> GateShut(c, w))
      && (match outcome
          case Parked => w.Put(Deferral(out)).Resumes(picks, stopped, w') && gauge == 1
          case Queued => w' == Stored(c, w, out) && gauge == 1
          case Dropped => w' == Stored(c, w, out).Delete(id).GiveSend() && gauge == 0)
    case OnPuback(id) => Effect(w', gauge) == PubackEffect(w, id)
    case OnPubrec(id, failed, now, interval) =>
      now >= 0 && interval >= 0 && Effect(w', gauge) == PubrecEffect(w, id, failed, now, interval)
    case OnPubrel(id, failed, now, interval, written) =>
      now >= 0 && interval >= 0 && Effect(w', gauge) == PubrelEffect(w, id, failed, now, interval, written)
    case OnPubcomp(id) => Effect(w', gauge) == PubcompEffect(w, id)
    case OnPublish(id, qos, now, interval, written) =>
      now >= 0 && interval >= 0 && Effect(w', gauge) == PublishedEffect(w, id, qos, now, interval, written)
    case Resuming(picks, stopped) => w.Resumes(picks, stopped, w') && gauge == 0
    case Resending(gone) =>
      && (forall id <- gone :: id in w.internal && IsTerminal(w.internal[id]))
      && w' == w.(internal := w.internal - gone) && gauge == 0 - |gone|
    case Expiring(now, maximumExpiry) =>
      w' == AfterExpiry(w, now, maximumExpiry) && gauge == 0 - |ExpiredIDs(w, now, maximumExpiry)|
    case Clearing => w' == w.(internal := map[]) && gauge == 0 - w.Counted()
  }

  /** A sweep returns a unit for each sent message it removes, and for nothing else. */
  lemma ExpiryReturnsUnits(w: Window, now: int, maximumExpiry: int)
    ensures |ExpiredHolding(w, now, maximumExpiry)| == w.Holding() - AfterExpiry(w, now, maximumExpiry).Holding()
  {
    var gone, before := ExpiredHolding(w, now, maximumExpiry), KeysWhere(w.internal, HoldsQuota);
    assert KeysWhere(w.internal - ExpiredIDs(w, now, maximumExpiry), HoldsQuota) == before - gone;
    assert gone <= before;
  }

  /** Between operations no id is merely reserved. */
  ghost predicate LiveMap(m: map<nat, Packet>) {
    forall id <- m :: m[id].packetID == id && !IsReserved(m[id])
  }

  ghost predicate AtRest(w: Window) { LiveMap(w.internal) && w.Bounded() }

  lemma AtRestCounts(w: Window)
    requires LiveMap(w.internal)
    ensures w.Counted() == |w.internal|
  {
    assert KeysWhere(w.internal, IsCounted) == w.internal.Keys;
    assert |w.internal.Keys| == |w.internal|;
  }

  lemma {:induction false} DrainAtRest(w: Window, picks: seq<nat>, stopped: bool, after: Window)
    requires AtRest(w) && w.Drains(picks, stopped, after)
    ensures AtRest(after) && after.internal.Keys == w.internal.Keys
    decreases |picks|
  {
    if picks == [] {
    } else if |picks| == 1 && stopped {
      RefusedSendUndone(w, picks[0]);
    } else {
      DrainAtRest(w.Release(picks[0]).TakeSend(), picks[1..], stopped, after);
    }
  }

  lemma ResumeAtRest(w: Window, picks: seq<nat>, stopped: bool, after: Window)
    requires AtRest(w) && w.Resumes(picks, stopped, after)
    ensures AtRest(after) && after.internal.Keys == w.internal.Keys
  {
    DrainAtRest(w.Recover(), picks, stopped, after);
  }

  lemma RemoveManySize<K, V>(m: map<K, V>, gone: set<K>)
    requires gone <= m.Keys
    ensures |m - gone| == |m| - |gone|
  {
  }

  lemma PutLive(m: map<nat, Packet>, p: Packet)
    requires LiveMap(m) && !IsReserved(p)
    ensures LiveMap(m[p.packetID := p]) && |m[p.packetID := p]| == |m| + One(p.packetID !in m)
  {
  }

  lemma ParkSizes(w: Window, out: Packet, picks: seq<nat>, stopped: bool, w': Window)
    requires AtRest(w) && out.packetID !in w.internal && w.Put(Deferral(out)).Resumes(picks, stopped, w')
    ensures AtRest(w') && |w'.internal| == |w.internal| + 1
  {
    var parked := w.Put(Deferral(out));
    PutLive(w.internal, Deferral(out));
    ResumeAtRest(parked, picks, stopped, w');
    assert |w'.internal.Keys| == |w'.internal| && |parked.internal.Keys| == |parked.internal|;
  }

  lemma StoreSizes(c: Config, w: Window, out: Packet)
    requires AtRest(w) && out.packetID !in w.internal && !IsReserved(out)
    ensures AtRest(Stored(c, w, out)) && Stored(c, w, out).internal == w.internal[out.packetID := out]
    ensures |Stored(c, w, out).internal| == |w.internal| + 1
  {
  }

  lemma DropSizes(w: Window, v: Window, out: Packet)
    requires AtRest(w) && out.packetID !in w.internal && AtRest(v) && v.internal == w.internal[out.packetID := out]
    ensures AtRest(v.Delete(out.packetID).GiveSend()) && v.Delete(out.packetID).GiveSend().internal == w.internal
  {
  }

  lemma PublishSizes(h: Handling, w: Window, w': Window, gauge: int)
    requires AtRest(w) && Handles(h, w, w', gauge) && h.Publishing?
    ensures AtRest(w') && |w'.internal| == |w.internal| + gauge
  {
    match h.outcome
    case Parked => ParkSizes(w, h.out, h.picks, h.stopped, w');
    case Queued => StoreSizes(h.c, w, h.out);
    case Dropped =>
      StoreSizes(h.c, w, h.out);
      DropSizes(w, Stored(h.c, w, h.out), h.out);
  }

  /** What each acknowledgement handler does to the number of entries. */
  ghost predicate Consistent(w: Window, e: Effect) {
    AtRest(e.window) && |e.window.internal| == |w.internal| + e.gauge
  }

  lemma PubackSizes(w: Window, id: nat)
    requires AtRest(w)
    ensures Consistent(w, PubackEffect(w, id))
  {
  }

  lemma PubrecSizes(w: Window, id: nat, failed: bool, now: nat, interval: nat)
    requires AtRest(w)
    ensures Consistent(w, PubrecEffect(w, id, failed, now, interval))
  {
  }

  lemma PubrelSizes(w: Window, id: nat, failed: bool, now: nat, interval: nat, written: bool)
    requires AtRest(w)
    ensures Consistent(w, PubrelEffect(w, id, failed, now, interval, written))
  {
  }

  lemma PubcompSizes(w: Window, id: nat)
    requires AtRest(w)
    ensures Consistent(w, PubcompEffect(w, id))
  {
  }

  lemma PublishedSizes(w: Window, id: nat, qos: nat, now: nat, interval: nat, written: bool)
    requires AtRest(w)
    ensures Consistent(w, PublishedEffect(w, id, qos, now, interval, written))
  {
  }

  /** The number of entries changes by the gauge; quotas stay in range. */
  lemma HandlerSizes(h: Handling, w: Window, w': Window, gauge: int)
    requires AtRest(w) && Handles(h, w, w', gauge)
    ensures AtRest(w') && |w'.internal| == |w.internal| + gauge
  {
    match h
    case PublishRefused =>
    case Publishing(_, _, _, _, _, _) => PublishSizes(h, w, w', gauge);
    case OnPublish(id, qos, now, interval, written) => PublishedSizes(w, id, qos, now, interval, written);
    case OnPuback(id) => PubackSizes(w, id);
    case OnPubrec(id, failed, now, interval) => PubrecSizes(w, id, failed, now, interval);
    case OnPubrel(id, failed, now, interval, written) => PubrelSizes(w, id, failed, now, interval, written);
    case OnPubcomp(id) => PubcompSizes(w, id);
    case Resuming(picks, stopped) =>
      ResumeAtRest(w, picks, stopped, w');
      assert |w'.internal.Keys| == |w'.internal| && |w.internal.Keys| == |w.internal|;
    case Resending(gone) => RemoveManySize(w.internal, gone);
    case Expiring(now, maximumExpiry) => RemoveManySize(w.internal, ExpiredIDs(w, now, maximumExpiry));
    case Clearing => AtRestCounts(w);
  }

  /** An outbound publish that nothing interrupts is the run of its protocol steps: one that
      finds the window shut parks and resumes. */
  lemma ParkIsProtocolRun(h: Handling, s: System, now: int, w': Window, gauge: int)
    requires h.Publishing? && h.outcome == Parked && Handles(h, s.w, w', gauge) && s.pubs == map[]
    requires !AtCap(s.w.internal, h.c.maxInflight) && IsNextID(s.w.internal, s.cursor, h.c.maxPacketID, h.id)
    ensures var s1 := Apply(h.c, s, Reserve(0, h.id, now));
            var s2 := Apply(h.c, s1, PassGate(0));
            var s3 := Apply(h.c, s2, Park(0, Deferral(h.out)));
            && Enabled(h.c, s3, Resume(h.picks, h.stopped, w'))
            && Apply(h.c, s3, Resume(h.picks, h.stopped, w')) == System(w', h.id, s.gauge + gauge, map[], s.client + multiset(Delivered(h.picks, h.stopped)))
  {
    var id := h.id;
    assert s.w.internal[id := Reservation(id, now)][id := Deferral(h.out)] == s.w.internal[id := Deferral(h.out)];
    assert map[0 := Claimed(id)][0 := Parking(id)] - {0} == map[];
  }

  /** One that finds it open gets as far as storing its message. */
  lemma StoredByProtocol(h: Handling, s: System, now: int, w': Window, gauge: int)
    requires h.Publishing? && h.outcome != Parked && Handles(h, s.w, w', gauge) && s.pubs == map[]
    requires !AtCap(s.w.internal, h.c.maxInflight) && IsNextID(s.w.internal, s.cursor, h.c.maxPacketID, h.id)
    ensures var s2 := Apply(h.c, Apply(h.c, s, Reserve(0, h.id, now)), PassGate(0));
            Apply(h.c, s2, Place(0, h.out)) == System(Stored(h.c, s.w, h.out), h.id, s.gauge + 1, map[0 := Placed(h.id)], s.client)
  {
    var id := h.id;
    assert s.w.internal[id := Reservation(id, now)][id := h.out] == s.w.internal[id := h.out];
    assert map[0 := Claimed(id)][0 := Charged(id)][0 := Placed(id)] == map[0 := Placed(id)];
  }

  /** And it then queues or drops it. */
  lemma PublishIsProtocolRun(h: Handling, s: System, now: int, w': Window, gauge: int)
    requires h.Publishing? && h.outcome != Parked && Handles(h, s.w, w', gauge) && s.pubs == map[]
    requires !AtCap(s.w.internal, h.c.maxInflight) && IsNextID(s.w.internal, s.cursor, h.c.maxPacketID, h.id)
    ensures var s1 := Apply(h.c, s, Reserve(0, h.id, now));
            var s2 := Apply(h.c, s1, PassGate(0));
            var s3 := Apply(h.c, s2, Place(0, h.out));
            (if h.outcome == Queued then Apply(h.c, s3, Enqueue(0)) else Apply(h.c, Apply(h.c, s3, Withdraw(0)), Restore(0)))
              == System(w', h.id, s.gauge + gauge, map[], if h.outcome == Queued then s.client + multiset{h.id} else s.client)
  {
    StoredByProtocol(h, s, now, w', gauge);
    assert map[0 := Placed(h.id)] - {0} == map[] && map[0 := Withdrawn(h.id)] - {0} == map[];
  }

  /** An inbound QoS 2 exchange on a free id, published and released with both answers written,
      leaves the map, the receive quota and the gauge as they were; it also returns a unit of
      send quota, which nobody took. */
  lemma InboundExchange(id: nat, now: int, later: int, interval: int, written: bool, w: Window, w1: Window, w2: Window, g1: int, g2: int)
    requires w.Bounded() && w.receiveQuota > 0 && id !in w.internal
    requires Handles(OnPublish(id, 2, now, interval, written), w, w1, g1)
    requires Handles(OnPubrel(id, false, later, interval, true), w1, w2, g2)
    ensures id in w1.internal && w1.internal[id].ptype == Pubrec && w1.receiveQuota == w.receiveQuota - 1 && g1 == 1
    ensures w2 == w.(sendQuota := w.sendQuota + One(w.sendQuota < w.maxSend)) && g2 == -1
  {
    assert w2.internal == w.internal;
  }

  /** An outbound one, received and completed, ends with the entry gone, its unit of send quota
      returned and the receive quota as it was, if there was any. */
  lemma OutboundExchange(id: nat, now: int, interval: int, w: Window, w1: Window, w2: Window, g1: int, g2: int)
    requires w.Bounded() && w.receiveQuota > 0 && id in w.internal
    requires Handles(OnPubrec(id, false, now, interval), w, w1, g1) && Handles(OnPubcomp(id), w1, w2, g2)
    ensures w1.internal.Keys == w.internal.Keys && w1.internal[id].ptype == Pubrel && w1.receiveQuota == w.receiveQuota - 1 && g1 == 0
    ensures w2 == w.(internal := w.internal - {id}, sendQuota := w.sendQuota + One(w.sendQuota < w.maxSend)) && g2 == -1
  {
    assert w2.internal == w.internal - {id};
  }

  // ---------------------------------------------------------------- the whole broker

  /** The windows of all client objects ever created, and `Info.Inflight`. */
  datatype Broker = Broker(clients: seq<Window>, inflight: int)

  datatype Event =
    | Connected(window: Window)
    | Handled(client: nat, h: Handling)
    | TakenOver(existing: nat, client: nat, receiveMaximum: nat, serverReceiveMax: nat)

  function Sum(ws: seq<Window>): nat {
    if ws == [] then 0 else Sum(ws[..|ws| - 1]) + ws[|ws| - 1].Counted()
  }

  /** The window a client inherits from `existing`; with nothing in flight it keeps its own. */
  function Inherited(existing: Window, own: Window, receiveMaximum: nat, serverReceiveMax: nat): Window {
    if existing.internal == map[] then own
    else
      var w := existing.Cloned().WithSendCap(if receiveMaximum == 0 then serverReceiveMax else receiveMaximum);
      if w.maxReceive == 0 && serverReceiveMax != 0
      then w.(receiveQuota := serverReceiveMax, maxReceive := serverReceiveMax) else w
  }

  ghost predicate Happens(b: Broker, e: Event, b': Broker) {
    match e
    case Connected(window) =>
      AtRest(window) && window.internal == map[] && b' == Broker(b.clients + [window], b.inflight)
    case Handled(i, h) =>
      && i < |b.clients| == |b'.clients|
      && b'.clients == b.clients[i := b'.clients[i]]
      && Handles(h, b.clients[i], b'.clients[i], b'.inflight - b.inflight)
    case TakenOver(i, k, receiveMaximum, serverReceiveMax) =>
      && i < |b.clients| && k < |b.clients| && i != k && b.clients[k].internal == map[]
      && b' == b.(clients := b.clients[k := Inherited(b.clients[i], b.clients[k], receiveMaximum, serverReceiveMax)]
                                      [i := b.clients[i].(internal := map[])])
  }

  ghost predicate IsHistory(events: seq<Event>, bs: seq<Broker>) {
    && |bs| == |events| + 1 && bs[0] == Broker([], 0)
    && forall i :: 0 <= i < |events| ==> Happens(bs[i], events[i], bs[i + 1])
  }

  lemma {:induction false} SumUpdate(ws: seq<Window>, i: nat, w: Window)
    requires i < |ws|
    ensures Sum(ws[i := w]) == Sum(ws) - ws[i].Counted() + w.Counted()
  {
    var n := |ws| - 1;
    if i == n {
      assert ws[i := w][..n] == ws[..n];
    } else {
      assert ws[i := w][..n] == ws[..n][i := w];
      SumUpdate(ws[..n], i, w);
    }
  }

  lemma NothingCounted(w: Window)
    requires w.internal == map[]
    ensures w.Counted() == 0
  {
  }

  ghost predicate Balanced(b: Broker) {
    (forall w <- b.clients :: AtRest(w)) && b.inflight == Sum(b.clients)
  }

  lemma InheritedAtRest(existing: Window, own: Window, receiveMaximum: nat, serverReceiveMax: nat)
    requires AtRest(existing) && AtRest(own) && own.internal == map[]
    ensures var w := Inherited(existing, own, receiveMaximum, serverReceiveMax);
            AtRest(w) && w.internal == existing.internal && w.Counted() == existing.Counted()
  {
  }

  lemma HandlerKeepsGauge(b: Broker, i: nat, h: Handling, b': Broker)
    requires Balanced(b) && Happens(b, Handled(i, h), b')
    ensures Balanced(b')
  {
    var w, w' := b.clients[i], b'.clients[i];
    HandlerSizes(h, w, w', b'.inflight - b.inflight);
    AtRestCounts(w);
    AtRestCounts(w');
    SumUpdate(b.clients, i, w');
    assert forall v <- b'.clients :: v in b.clients || v == w';
  }

  lemma TakeoverKeepsGauge(b: Broker, e: Event, b': Broker)
    requires Balanced(b) && e.TakenOver? && Happens(b, e, b')
    ensures Balanced(b')
  {
    var i, k := e.existing, e.client;
    var left := b.clients[i].(internal := map[]);
    var taken := Inherited(b.clients[i], b.clients[k], e.receiveMaximum, e.serverReceiveMax);
    InheritedAtRest(b.clients[i], b.clients[k], e.receiveMaximum, e.serverReceiveMax);
    NothingCounted(b.clients[k]);
    NothingCounted(left);
    SumUpdate(b.clients, k, taken);
    SumUpdate(b.clients[k := taken], i, left);
    assert forall v <- b'.clients :: v in b.clients || v == taken || v == left;
  }

  lemma EventKeepsGauge(b: Broker, e: Event, b': Broker)
    requires Balanced(b) && Happens(b, e, b')
    ensures Balanced(b')
  {
    match e
    case Connected(window) =>
      NothingCounted(window);
      assert b'.clients[..|b.clients|] == b.clients;
    case Handled(i, h) => HandlerKeepsGauge(b, i, h, b');
    case TakenOver(_, _, _, _) => TakeoverKeepsGauge(b, e, b');
  }

  /** After any history, whatever acknowledgements clients send: the gauge is the number of
      live entries over all client objects, so never negative, and every quota is in range. */
  lemma {:induction false} GaugeCountsLiveEntries(events: seq<Event>, bs: seq<Broker>, i: nat)
    requires IsHistory(events, bs) && i < |bs|
    ensures bs[i].inflight == Sum(bs[i].clients)
    ensures forall w <- bs[i].clients :: w.Bounded() && w.Keyed()
    ensures Balanced(bs[i])
  {
    if i > 0 {
      GaugeCountsLiveEntries(events, bs, i - 1);
      assert Happens(bs[i - 1], events[i - 1], bs[i - 1 + 1]);
      EventKeepsGauge(bs[i - 1], events[i - 1], bs[i]);
    }
  }
}
