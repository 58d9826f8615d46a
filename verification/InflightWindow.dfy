/** The value of one client's inflight store: the packets awaiting acknowledgement and the
    two flow control windows of section 4.9 of MQTT 5.0. Every operation of the store is
    given here as a function of that value. */
module InflightWindow {
  import opened Collections

  const DEFERRED: int := -1   // parked until send quota is available
  const RESERVED: int := -2   // packet id claimed, publish not stored yet
  const MAX_PACKET_ID: nat := 65535

  datatype PacketType = Unset | Publish | Puback | Pubrec | Pubrel | Pubcomp

  datatype Packet = Packet(
    packetID: nat, ptype: PacketType, qos: nat, version: nat,
    created: int, expiry: int, content: string)

  predicate IsDeferred(p: Packet) { p.expiry == DEFERRED }
  predicate IsReserved(p: Packet) { p.expiry == RESERVED }
  predicate IsSent(p: Packet) { !IsDeferred(p) && !IsReserved(p) }

  /** Sent messages of QoS 1 and 2 each hold one unit of send quota. */
  predicate HoldsQuota(p: Packet) { IsSent(p) && p.qos > 0 }

  /** The entries the broker-wide inflight gauge is meant to count. */
  predicate IsCounted(p: Packet) { !IsReserved(p) }

  /** `uint16(Created)`, the key that orders parked messages. */
  function Stamp(p: Packet): nat { p.created % 65536 }

  /** `p` goes before `q`, or either may go first: by the low 16 bits of the creation time, and
      so in order of creation within one turn of that counter. */
  predicate NoLater(p: Packet, q: Packet) {
    && p.created % 65536 <= q.created % 65536
    && (p.created / 65536 == q.created / 65536 ==> p.created <= q.created)
  }

  lemma StampOrder(p: Packet, q: Packet)
    ensures Stamp(p) <= Stamp(q) <==> NoLater(p, q)
  {
  }

  function Reservation(id: nat, now: int): Packet {
    Packet(id, Unset, 0, 0, now, RESERVED, "")
  }

  datatype Window = Window(
    internal: map<nat, Packet>,
    sendQuota: int, maxSend: int, receiveQuota: int, maxReceive: int)
  {
    /** Entries are always stored under their own packet id. */
    ghost predicate Keyed() {
      forall id <- internal :: internal[id].packetID == id
    }

    ghost predicate Bounded() {
      0 <= sendQuota <= maxSend && 0 <= receiveQuota <= maxReceive
    }

    function Holding(): nat { |KeysWhere(internal, HoldsQuota)| }
    function Counted(): nat { |KeysWhere(internal, IsCounted)| }

    function Put(p: Packet): Window { this.(internal := internal[p.packetID := p]) }
    function Delete(id: nat): Window { this.(internal := internal - {id}) }

    /** Whether `ReplaceCounted` stores: it never overwrites a live message. */
    predicate Replaceable(id: nat) { id in internal ==> IsReserved(internal[id]) }

    function TakeSend(): Window {
      if sendQuota > 0 then this.(sendQuota := sendQuota - 1) else this
    }
    function GiveSend(): Window {
      if sendQuota < maxSend then this.(sendQuota := sendQuota + 1) else this
    }
    function TakeReceive(): Window {
      if receiveQuota > 0 then this.(receiveQuota := receiveQuota - 1) else this
    }
    function GiveReceive(): Window {
      if receiveQuota < maxReceive then this.(receiveQuota := receiveQuota + 1) else this
    }

    /** The historical deadlock: everything parked and no quota left. */
    ghost predicate Starved() {
      && internal != map[]
      && (forall id <- internal :: IsDeferred(internal[id]))
      && sendQuota <= 0 && maxSend != 0
    }
    ghost function Recover(): Window { if Starved() then this.(sendQuota := 1) else this }

    ghost predicate Leaking() { internal == map[] && maxSend > 0 && sendQuota != maxSend }
    ghost function Refill(): Window { if Leaking() then this.(sendQuota := maxSend) else this }

    ghost predicate HasDeferred() { exists id :: id in internal && IsDeferred(internal[id]) }

    /** `id` is a parked message no later than any other. */
    ghost predicate IsNextDeferred(id: nat) {
      && id in internal && IsDeferred(internal[id])
      && forall other <- internal :: IsDeferred(internal[other]) ==> NoLater(internal[id], internal[other])
    }

    function Release(id: nat): Window
      requires id in internal
    {
      this.(internal := internal[id := internal[id].(expiry := 0)])
    }

    function Rest(max: int): int { if max - Holding() < 0 then 0 else max - Holding() }

    /** `ReconcileSendQuotaCap`: the new window minus what sent messages already hold. */
    function WithSendCap(max: int): Window {
      if max <= 0 then this else this.(maxSend := max, sendQuota := Rest(max))
    }

    function Cloned(): Window {
      this.(sendQuota := if maxSend > 0 then Rest(maxSend) else 0)
    }

    /** One pass of the resume loop from this window: `picks` are the parked messages taken
        in turn; when `stopped`, the connection refused the last of them. */
    ghost predicate Drains(picks: seq<nat>, stopped: bool, after: Window)
      decreases |picks|
    {
      if picks == [] then
        !stopped && (sendQuota <= 0 || !HasDeferred()) && after == Refill()
      else
        && sendQuota > 0 && IsNextDeferred(picks[0])
        && var sent := Release(picks[0]).TakeSend();
           if |picks| == 1 && stopped then
             after == sent.Put(sent.internal[picks[0]].(expiry := DEFERRED)).GiveSend().Refill()
           else
             sent.Drains(picks[1..], stopped, after)
    }

    /** `resumeDeferredPublishes` as one step. */
    ghost predicate Resumes(picks: seq<nat>, stopped: bool, after: Window) {
      Recover().Drains(picks, stopped, after)
    }
  }

  const EMPTY: Window := Window(map[], 0, 0, 0, 0)

  lemma PutCounts(w: Window, p: Packet)
    ensures w.Put(p).Holding() == w.Holding()
              - One(p.packetID in w.internal && HoldsQuota(w.internal[p.packetID])) + One(HoldsQuota(p))
    ensures w.Put(p).Counted() == w.Counted()
              - One(p.packetID in w.internal && IsCounted(w.internal[p.packetID])) + One(IsCounted(p))
  {
    CountUpdate(w.internal, HoldsQuota, p.packetID, p);
    CountUpdate(w.internal, IsCounted, p.packetID, p);
  }

  lemma DeleteCounts(w: Window, id: nat)
    ensures w.Delete(id).Holding() == w.Holding() - One(id in w.internal && HoldsQuota(w.internal[id]))
    ensures w.Delete(id).Counted() == w.Counted() - One(id in w.internal && IsCounted(w.internal[id]))
  {
    CountRemove(w.internal, HoldsQuota, id);
    CountRemove(w.internal, IsCounted, id);
  }

  /** Sending a parked message moves one unit from the quota to the sent messages. */
  lemma ReleaseCounts(w: Window, id: nat)
    requires id in w.internal && IsDeferred(w.internal[id]) && w.internal[id].qos > 0
    ensures w.Release(id).Holding() == w.Holding() + 1
    ensures w.Release(id).Counted() == w.Counted()
  {
    CountUpdate(w.internal, HoldsQuota, id, w.internal[id].(expiry := 0));
    CountUpdate(w.internal, IsCounted, id, w.internal[id].(expiry := 0));
  }

  /** A refused send puts the message and its quota back: nothing but the heal remains. */
  lemma RefusedSendUndone(w: Window, id: nat)
    requires w.Keyed() && w.Bounded() && w.sendQuota > 0 && w.IsNextDeferred(id)
    ensures var sent := w.Release(id).TakeSend();
            sent.Put(sent.internal[id].(expiry := DEFERRED)).GiveSend().Refill() == w
  {
    var sent := w.Release(id).TakeSend();
    assert sent.Put(sent.internal[id].(expiry := DEFERRED)).internal == w.internal;
  }

  /** Parked messages are taken once each, in turn, and before any that stays parked. */
  ghost predicate InTurn(m: map<nat, Packet>, picks: seq<nat>) {
    && (forall k <- picks :: k in m && m[k].expiry == -1)
    && (forall i, j :: 0 <= i < j < |picks| ==> picks[i] != picks[j] && NoLater(m[picks[i]], m[picks[j]]))
    && (forall i, id :: 0 <= i < |picks| && id in m && m[id].expiry == -1 && id !in picks ==> NoLater(m[picks[i]], m[id]))
  }

  lemma InTurnFirst(m: map<nat, Packet>, m': map<nat, Packet>, first: nat, rest: seq<nat>)
    requires first in m && m[first].expiry == -1 && m' == m[first := m[first].(expiry := 0)] && InTurn(m', rest)
    requires forall id <- m :: m[id].expiry == -1 ==> NoLater(m[first], m[id])
    ensures InTurn(m, [first] + rest)
  {
    var picks := [first] + rest;
    assert forall i :: 0 < i < |picks| ==> picks[i] == rest[i - 1] && picks[i] in rest;
    assert forall k <- rest :: k != first;
  }

  /** The picks of a resume loop are in turn. */
  lemma {:induction false} DrainInTurn(w: Window, picks: seq<nat>, stopped: bool, after: Window)
    requires w.Drains(picks, stopped, after)
    ensures InTurn(w.internal, picks)
    decreases |picks|
  {
    if picks != [] {
      var sent := w.Release(picks[0]).TakeSend();
      assert forall id <- w.internal :: w.internal[id].expiry == -1 ==> NoLater(w.internal[picks[0]], w.internal[id]);
      if |picks| == 1 && stopped {
        assert InTurn(sent.internal, []);
        InTurnFirst(w.internal, sent.internal, picks[0], []);
        assert [picks[0]] + [] == picks;
      } else {
        DrainInTurn(sent, picks[1..], stopped, after);
        InTurnFirst(w.internal, sent.internal, picks[0], picks[1..]);
        assert [picks[0]] + picks[1..] == picks;
      }
    }
  }

  lemma ResumeInTurn(w: Window, picks: seq<nat>, stopped: bool, after: Window)
    requires w.Resumes(picks, stopped, after)
    ensures InTurn(w.internal, picks)
  {
    DrainInTurn(w.Recover(), picks, stopped, after);
  }
}
