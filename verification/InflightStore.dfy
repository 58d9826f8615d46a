/** The mutable inflight store of a client (inflight.go), proved against `Window`. */
module InflightStore {
  import opened Collections
  import opened InflightWindow

  datatype ReserveResult = ReserveOK | ReserveIDTaken | ReserveFull

  /** `GetAll(true)` keeps only the parked packets. */
  predicate Wanted(immediate: bool, p: Packet) { !immediate || IsDeferred(p) }

  /** Every wanted packet of `m` exactly once, none later than the next. */
  ghost predicate Lists(m: map<nat, Packet>, immediate: bool, list: seq<Packet>) {
    && (forall i :: 0 <= i < |list| ==>
          list[i].packetID in m && m[list[i].packetID] == list[i] && Wanted(immediate, list[i]))
    && (forall i, j :: 0 <= i < j < |list| ==> list[i].packetID != list[j].packetID)
    && (forall id <- m :: Wanted(immediate, m[id]) ==> m[id] in list)
    && (forall i, j {:trigger NoLater(list[i], list[j])} :: 0 <= i < j < |list| ==> NoLater(list[i], list[j]))
  }

  /** `list` is a listing of what is wanted and not `left`, none of it later than what is left. */
  ghost predicate ListsAllBut(m: map<nat, Packet>, immediate: bool, left: set<nat>, list: seq<Packet>) {
    && (forall id <- left :: id in m && Wanted(immediate, m[id]))
    && Lists(m - left, immediate, list)
    && (forall i, id {:trigger NoLater(list[i], m[id])} :: 0 <= i < |list| && id in left ==> NoLater(list[i], m[id]))
  }

  lemma ListOldest(m: map<nat, Packet>, immediate: bool, left: set<nat>, list: seq<Packet>, id: nat)
    requires ListsAllBut(m, immediate, left, list) && id in left && m[id].packetID == id
    requires forall other <- left :: NoLater(m[id], m[other])
    ensures ListsAllBut(m, immediate, left - {id}, list + [m[id]])
  {
    assert forall k <- m - (left - {id}) :: k == id || k in m - left;
    assert m[id] == (list + [m[id]])[|list|];
  }

  class Inflight {
    var internal: map<nat, Packet>
    var receiveQuota: int
    var sendQuota: int
    var maximumReceiveQuota: int
    var maximumSendQuota: int

    ghost function View(): Window
      reads this
    {
      Window(internal, sendQuota, maximumSendQuota, receiveQuota, maximumReceiveQuota)
    }

    constructor ()
      ensures View() == EMPTY
    {
      internal := map[];
      receiveQuota, sendQuota, maximumReceiveQuota, maximumSendQuota := 0, 0, 0, 0;
    }

    method Set(m: Packet) returns (isNew: bool)
      modifies this
      ensures isNew <==> m.packetID !in old(internal)
      ensures View() == old(View()).Put(m)
    {
      isNew := m.packetID !in internal;
      internal := internal[m.packetID := m];
    }

    /** Claims a free id, under the cap when there is one, in one critical section. */
    method TryReserve(id: nat, max: int, now: int) returns (r: ReserveResult)
      modifies this
      ensures r == ReserveFull <==> max > 0 && |old(internal)| >= max
      ensures r == ReserveIDTaken <==> !(max > 0 && |old(internal)| >= max) && id in old(internal)
      ensures View() == if r == ReserveOK then old(View()).Put(Reservation(id, now)) else old(View())
      ensures r == ReserveOK ==> internal == old(internal)[id := Packet(id, Unset, 0, 0, now, -2, "")]
    {
      if max > 0 && |internal| >= max {
        return ReserveFull;
      }
      if id in internal {
        return ReserveIDTaken;
      }
      internal := internal[id := Reservation(id, now)];
      return ReserveOK;
    }

    /** Stores over a reservation (or inserts); refuses to overwrite a live message. */
    method ReplaceCounted(m: Packet, gauge: int) returns (ok: bool, gauge': int)
      modifies this
      ensures ok <==> old(View()).Replaceable(m.packetID)
      ensures ok <==> m.packetID !in old(internal) || old(internal)[m.packetID].expiry == -2
      ensures View() == if ok then old(View()).Put(m) else old(View())
      ensures gauge' == gauge + One(ok)
    {
      if m.packetID in internal && internal[m.packetID].expiry != RESERVED {
        return false, gauge;
      }
      internal := internal[m.packetID := m];
      return true, gauge + 1;
    }

    method Delete(id: nat) returns (existed: bool)
      modifies this
      ensures existed <==> id in old(internal)
      ensures View() == old(View()).Delete(id)
    {
      existed := id in internal;
      internal := internal - {id};
    }

    /** All entries, or only the parked ones, sorted by their 16-bit stamp. */
    method GetAll(immediate: bool) returns (m: seq<Packet>)
      requires View().Keyed()
      ensures Lists(internal, immediate, m)
    {
      m := [];
      var left := set id | id in internal && Wanted(immediate, internal[id]);
      while left != {}
        invariant ListsAllBut(internal, immediate, left, m)
      {
        var id := Oldest(left);
        ListOldest(internal, immediate, left, m, id);
        m := m + [internal[id]];
        left := left - {id};
      }
      assert internal - {} == internal;
    }

    method Oldest(ids: set<nat>) returns (id: nat)
      requires ids != {} && ids <= internal.Keys
      ensures id in ids
      ensures forall other <- ids :: NoLater(internal[id], internal[other])
    {
      id :| id in ids;
      var left := ids - {id};
      while left != {}
        invariant left <= ids && id in ids
        invariant forall other <- ids - left :: NoLater(internal[id], internal[other])
      {
        var other :| other in left;
        if Stamp(internal[other]) < Stamp(internal[id]) {
          id := other;
        }
        left := left - {other};
      }
    }

    /** Takes the oldest parked packet out of the parked state; it stays stored. */
    method TakeNextImmediate() returns (next: Packet, ok: bool)
      requires View().Keyed()
      modifies this
      ensures ok <==> old(View()).HasDeferred()
      ensures ok ==> old(View()).IsNextDeferred(next.packetID)
      ensures ok ==> View() == old(View()).Release(next.packetID) && next == internal[next.packetID]
      ensures ok ==> next == old(internal)[next.packetID].(expiry := 0)
      ensures ok ==> forall id <- old(internal) :: old(internal)[id].expiry == -1 ==>
                       && next.created % 65536 <= old(internal)[id].created % 65536
                       && (old(internal)[id].created / 65536 == next.created / 65536 ==> next.created <= old(internal)[id].created)
      ensures !ok ==> View() == old(View())
    {
      var found := false;
      var selected := Reservation(0, 0);
      var left := internal.Keys;
      while left != {}
        invariant left <= internal.Keys
        invariant View() == old(View())
        invariant found ==> selected.packetID in internal && internal[selected.packetID] == selected && IsDeferred(selected)
        invariant !found ==> forall id <- internal :: id in left || !IsDeferred(internal[id])
        invariant found ==> forall id <- internal ::
                              IsDeferred(internal[id]) ==> id in left || Stamp(selected) <= Stamp(internal[id])
      {
        var id :| id in left;
        var v := internal[id];
        if v.expiry == DEFERRED && (!found || Stamp(v) < Stamp(selected)) {
          selected := v;
          found := true;
        }
        left := left - {id};
      }
      if !found {
        return selected, false;
      }
      next := selected.(expiry := 0);
      ok := true;
      internal := internal[next.packetID := next];
    }

    method RecoverStarvedSendQuota() returns (fired: bool)
      modifies this
      ensures fired <==> old(View()).Starved()
      ensures View() == old(View()).Recover()
      ensures fired <==> old(internal) != map[] && old(sendQuota) <= 0 && old(maximumSendQuota) != 0
                         && forall id <- old(internal) :: old(internal)[id].expiry == -1
      ensures internal == old(internal) && sendQuota == if fired then 1 else old(sendQuota)
    {
      if |internal| == 0 {
        return false;
      }
      var left := internal.Keys;
      while left != {}
        invariant left <= internal.Keys
        invariant forall id <- internal :: id in left || IsDeferred(internal[id])
      {
        var id :| id in left;
        if internal[id].expiry != DEFERRED {
          return false;
        }
        left := left - {id};
      }
      if sendQuota > 0 || maximumSendQuota == 0 {
        return false;
      }
      sendQuota := 1;
      return true;
    }

    method ResetSendQuotaIfEmpty() returns (fired: bool)
      modifies this
      ensures fired <==> old(View()).Leaking()
      ensures View() == old(View()).Refill()
      ensures fired <==> old(internal) == map[] && old(maximumSendQuota) > 0 && old(sendQuota) != old(maximumSendQuota)
      ensures internal == old(internal) && sendQuota == if fired then maximumSendQuota else old(sendQuota)
    {
      if |internal| != 0 || maximumSendQuota <= 0 || sendQuota == maximumSendQuota {
        return false;
      }
      sendQuota := maximumSendQuota;
      return true;
    }

    /** The number of sent messages of QoS 1 and 2. */
    method CountHolding() returns (n: nat)
      ensures n == View().Holding()
      ensures n == |set id | id in internal && internal[id].expiry != -1 && internal[id].expiry != -2 && internal[id].qos > 0|
    {
      n := 0;
      var left := internal;
      while left != map[]
        invariant n + |KeysWhere(left, HoldsQuota)| == View().Holding()
        decreases left.Keys
      {
        var id :| id in left;
        var v := left[id];
        if v.expiry != DEFERRED && v.expiry != RESERVED && v.qos > 0 {
          n := n + 1;
        }
        CountRemove(left, HoldsQuota, id);
        left := left - {id};
      }
      assert KeysWhere(left, HoldsQuota) == {};
      assert KeysWhere(internal, HoldsQuota) ==
               set id | id in internal && internal[id].expiry != -1 && internal[id].expiry != -2 && internal[id].qos > 0;
    }

    method Clone() returns (c: Inflight)
      ensures fresh(c)
      ensures c.View() == View().Cloned()
      ensures c.internal == internal && c.maximumSendQuota == maximumSendQuota
      ensures c.receiveQuota == receiveQuota && c.maximumReceiveQuota == maximumReceiveQuota
      ensures maximumSendQuota > 0 ==>
                c.sendQuota >= 0 && (c.sendQuota + View().Holding() == maximumSendQuota || (c.sendQuota == 0 && View().Holding() > maximumSendQuota))
    {
      c := new Inflight();
      c.internal := internal;
      var sentHoldingQuota := CountHolding();
      c.maximumSendQuota := maximumSendQuota;
      c.maximumReceiveQuota := maximumReceiveQuota;
      c.receiveQuota := receiveQuota;
      if maximumSendQuota > 0 {
        var left := maximumSendQuota - sentHoldingQuota;
        if left < 0 {
          left := 0;
        }
        c.sendQuota := left;
      }
    }

    method ReconcileSendQuotaCap(max: int)
      modifies this
      ensures View() == old(View()).WithSendCap(max)
      ensures max <= 0 ==> View() == old(View())
      ensures max > 0 ==> maximumSendQuota == max && sendQuota >= 0
      ensures max > 0 ==> sendQuota + View().Holding() == max || (sendQuota == 0 && View().Holding() > max)
    {
      var sentHoldingQuota := CountHolding();
      if max <= 0 {
        return;
      }
      maximumSendQuota := max;
      var left := max - sentHoldingQuota;
      if left < 0 {
        left := 0;
      }
      sendQuota := left;
    }

    method DecreaseReceiveQuota() returns (ok: bool)
      modifies this
      ensures ok <==> old(receiveQuota) > 0
      ensures View() == old(View()).TakeReceive()
      ensures receiveQuota == if ok then old(receiveQuota) - 1 else old(receiveQuota)
    {
      if receiveQuota <= 0 { return false; }
      receiveQuota := receiveQuota - 1;
      return true;
    }

    method IncreaseReceiveQuota() returns (ok: bool)
      modifies this
      ensures ok <==> old(receiveQuota) < maximumReceiveQuota
      ensures View() == old(View()).GiveReceive()
      ensures receiveQuota == if ok then old(receiveQuota) + 1 else old(receiveQuota)
    {
      if receiveQuota >= maximumReceiveQuota { return false; }
      receiveQuota := receiveQuota + 1;
      return true;
    }

    method ResetReceiveQuota(n: int)
      modifies this
      ensures View() == old(View()).(receiveQuota := n, maxReceive := n)
    {
      maximumReceiveQuota := n;
      receiveQuota := n;
    }

    method DecreaseSendQuota() returns (ok: bool)
      modifies this
      ensures ok <==> old(sendQuota) > 0
      ensures View() == old(View()).TakeSend()
      ensures sendQuota == if ok then old(sendQuota) - 1 else old(sendQuota)
    {
      if sendQuota <= 0 { return false; }
      sendQuota := sendQuota - 1;
      return true;
    }

    method IncreaseSendQuota() returns (ok: bool)
      modifies this
      ensures ok <==> old(sendQuota) < maximumSendQuota
      ensures View() == old(View()).GiveSend()
      ensures sendQuota == if ok then old(sendQuota) + 1 else old(sendQuota)
    {
      if sendQuota >= maximumSendQuota { return false; }
      sendQuota := sendQuota + 1;
      return true;
    }

    method ResetSendQuota(n: int)
      modifies this
      ensures View() == old(View()).(sendQuota := n, maxSend := n)
    {
      maximumSendQuota := n;
      sendQuota := n;
    }
  }
}
