/** The broker's operations on a client (server.go, clients.go), in the form of the source:
    methods that update the client's inflight store, its packet id cursor and the server's
    gauge. Each is proved to do exactly what `Handlers` and `FlowControl` reason about.
    Network writes are decided by the caller's `written` arguments; hooks do nothing. */
module Broker {
  import opened Collections
  import opened InflightWindow
  import opened FlowControl
  import opened Handlers
  import opened InflightStore

  // ---------------------------------------------------------------- the resume loop

  /** Sending the parked messages `picks` in turn leads from `w` to `v`. */
  ghost predicate Sends(w: Window, picks: seq<nat>, v: Window)
    decreases |picks|
  {
    if picks == [] then v == w
    else w.sendQuota > 0 && w.IsNextDeferred(picks[0]) && Sends(w.Release(picks[0]).TakeSend(), picks[1..], v)
  }

  lemma {:induction false} SendsOneMore(w: Window, picks: seq<nat>, v: Window, id: nat)
    requires Sends(w, picks, v) && v.sendQuota > 0 && v.IsNextDeferred(id)
    ensures Sends(w, picks + [id], v.Release(id).TakeSend())
    decreases |picks|
  {
    if picks != [] {
      assert (picks + [id])[1..] == picks[1..] + [id];
      SendsOneMore(w.Release(picks[0]).TakeSend(), picks[1..], v, id);
    }
  }

  lemma {:induction false} SendsThenDrains(w: Window, picks: seq<nat>, v: Window, more: seq<nat>, stopped: bool, after: Window)
    requires Sends(w, picks, v) && v.Drains(more, stopped, after)
    ensures w.Drains(picks + more, stopped, after)
    decreases |picks|
  {
    if picks == [] {
      assert picks + more == more;
    } else {
      assert (picks + more)[1..] == picks[1..] + more;
      SendsThenDrains(w.Release(picks[0]).TakeSend(), picks[1..], v, more, stopped, after);
    }
  }

  /** The connection refuses the next parked message. */
  lemma StopsAt(v: Window, id: nat, after: Window)
    requires v.sendQuota > 0 && v.IsNextDeferred(id)
    requires var sent := v.Release(id).TakeSend();
             after == sent.Put(sent.internal[id].(expiry := DEFERRED)).GiveSend().Refill()
    ensures v.Drains([id], true, after)
  {
  }

  lemma RefusedEnds(w: Window, picks: seq<nat>, v: Window, id: nat, after: Window)
    requires Sends(w, picks, v) && v.sendQuota > 0 && v.IsNextDeferred(id)
    requires var sent := v.Release(id).TakeSend();
             after == sent.Put(sent.internal[id].(expiry := DEFERRED)).GiveSend().Refill()
    ensures w.Drains(picks + [id], true, after)
  {
    StopsAt(v, id, after);
    SendsThenDrains(w, picks, v, [id], true, after);
  }

  lemma SentEnds(w: Window, picks: seq<nat>, v: Window)
    requires Sends(w, picks, v) && (v.sendQuota <= 0 || !v.HasDeferred())
    ensures w.Drains(picks, false, v.Refill())
  {
    SendsThenDrains(w, picks, v, [], false, v.Refill());
    assert picks + [] == picks;
  }

  class Client {
    var inflight: Inflight
    var packetID: nat        // the last packet id handed out
    var version: nat
    var open: bool           // a connection exists and is not closed

    constructor (version: nat)
      ensures fresh(inflight) && inflight.View() == EMPTY && packetID == 0 && this.version == version && open
    {
      inflight := new Inflight();
      packetID := 0;
      this.version := version;
      open := true;
    }

    /** Reserves the first free packet id in cyclic order after the cursor; fails exactly when
        the store is at its cap or every id is taken. Never returns 0. */
    method NextPacketID(cap: int, maxPacketID: nat, now: int) returns (i: nat, ok: bool)
      requires packetID <= maxPacketID <= MAX_PACKET_ID
      modifies this`packetID, inflight
      ensures packetID <= maxPacketID
      ensures ok <==> !AtCap(old(inflight.internal), cap) && !NoneFree(old(inflight.internal), maxPacketID)
      ensures ok ==> IsNextID(old(inflight.internal), old(packetID), maxPacketID, i) && packetID == i
      ensures ok ==> 1 <= i <= maxPacketID && i !in old(inflight.internal) && (cap <= 0 || |old(inflight.internal)| < cap)
      ensures ok ==> forall k :: 1 <= k <= maxPacketID && k !in old(inflight.internal) ==>
                       if i > old(packetID) then k <= old(packetID) || i <= k else k <= old(packetID) && i <= k
      ensures !ok ==> (0 < cap <= |old(inflight.internal)|) || forall k :: 1 <= k <= maxPacketID ==> k in old(inflight.internal)
      ensures ok ==> inflight.View() == old(inflight.View()).Put(Reservation(i, now))
      ensures !ok ==> packetID == old(packetID) && inflight.View() == old(inflight.View())
    {
      i := packetID;
      var started := i;
      var overflowed := false;
      ghost var taken := inflight.internal;
      while true
        invariant inflight.View() == old(inflight.View()) && packetID == started
        invariant i <= maxPacketID && (if overflowed then i <= started else started <= i)
        invariant forall k :: 1 <= k <= maxPacketID && (if overflowed then k > started || k <= i else started < k <= i) ==> k in taken
        invariant overflowed || i > started ==> !AtCap(taken, cap) || started == maxPacketID
        invariant overflowed && i > 0 ==> !AtCap(taken, cap)
        decreases if overflowed then 0 else 1, if overflowed then started - i else maxPacketID - i
      {
        if overflowed && i == started {
          return 0, false;
        }
        if i >= maxPacketID {
          overflowed := true;
          i := 0;
          continue;
        }
        i := i + 1;
        var r := inflight.TryReserve(i, cap, now);
        if r == ReserveOK {
          packetID := i;
          return i, true;
        } else if r == ReserveFull {
          return 0, false;
        }
      }
    }

    /** Deletes every entry; reservations were never counted. */
    method ClearInflights(gauge: int) returns (gauge': int)
      requires inflight.View().Keyed()
      modifies inflight
      ensures inflight.View() == old(inflight.View()).(internal := map[])
      ensures gauge' == gauge - old(inflight.View()).Counted()
      ensures gauge' == gauge - |set id | id in old(inflight.internal) && old(inflight.internal)[id].expiry != -2|
    {
      gauge' := gauge;
      var all := inflight.GetAll(false);
      ghost var w := inflight.View();
      for n := 0 to |all|
        invariant inflight.View() == w.(internal := inflight.internal)
        invariant inflight.internal == w.internal - IDs(all[..n])
        invariant gauge' == gauge - w.Counted() + |KeysWhere(inflight.internal, IsCounted)|
      {
        assert all[..n + 1][..n] == all[..n];
        RemoveOneMore(w.internal, IDs(all[..n]), all[n].packetID);
        CountRemove(inflight.internal, IsCounted, all[n].packetID);
        var existed := inflight.Delete(all[n].packetID);
        if existed && all[n].expiry != RESERVED {
          gauge' := gauge' - 1;
        }
      }
      assert all[..|all|] == all;
      ListedAll(w, all);
      AllListed(w.internal, all);
      assert KeysWhere(inflight.internal, IsCounted) == {};
      assert KeysWhere(w.internal, IsCounted) == set id | id in w.internal && w.internal[id].expiry != -2;
    }

    /** Drops all entries without touching the gauge, after their ownership moved. */
    method ResetInflights()
      requires inflight.View().Keyed()
      modifies inflight
      ensures inflight.View() == old(inflight.View()).(internal := map[])
    {
      var all := inflight.GetAll(false);
      ghost var w := inflight.View();
      for n := 0 to |all|
        invariant inflight.View() == w.(internal := w.internal - IDs(all[..n]))
      {
        assert all[..n + 1][..n] == all[..n];
        RemoveOneMore(w.internal, IDs(all[..n]), all[n].packetID);
        var _ := inflight.Delete(all[n].packetID);
      }
      assert all[..|all|] == all;
      ListedAll(w, all);
      AllListed(w.internal, all);
    }
  
    /** One listed entry: deleted if it has expired, and its unit returned if it held one. */
    method DropExpired(tk: Packet, now: int, maximumExpiry: int, gauge: int, ghost base: int) returns (gone: bool, gauge': int)
      modifies inflight
      ensures Effect(inflight.View(), gauge' - base) ==
                SweepOne(Effect(old(inflight.View()), gauge - base), tk, Expiry(now, maximumExpiry))
      ensures gauge' == gauge - One(gone)
      ensures if gone then tk.packetID in old(inflight.internal) && inflight.internal == old(inflight.internal) - {tk.packetID}
              else inflight.internal == old(inflight.internal)
    {
      gone, gauge' := false, gauge;
      if tk.expiry == DEFERRED || tk.expiry == RESERVED {
        return;
      }
      var expired := tk.version == 5 && tk.expiry > 0 && tk.expiry < now;
      var enforced := maximumExpiry > 0 && tk.created > 0 && now - tk.created > maximumExpiry;
      if expired || enforced {
        var existed := inflight.Delete(tk.packetID);
        if existed {
          if tk.qos > 0 {
            var _ := inflight.IncreaseSendQuota();
          }
          gone, gauge' := true, gauge - 1;
        }
      }
    }

    method SweepExpired(now: int, maximumExpiry: int, gauge: int) returns (deleted: seq<nat>, gauge': int)
      requires inflight.View().Keyed()
      modifies inflight
      ensures Handles(Expiring(now, maximumExpiry), old(inflight.View()), inflight.View(), gauge' - gauge)
      ensures |deleted| == |ExpiredIDs(old(inflight.View()), now, maximumExpiry)|
      ensures forall id :: id in deleted <==> id in old(inflight.internal) && id !in inflight.internal
    {
      deleted, gauge' := [], gauge;
      var all := inflight.GetAll(false);
      ghost var w, sweep := inflight.View(), Expiry(now, maximumExpiry);
      for n := 0 to |all|
        invariant Effect(inflight.View(), gauge' - gauge) == SweepUpTo(w, all, n, sweep)
        invariant |deleted| == gauge - gauge'
        invariant forall id :: id in inflight.internal ==> id in w.internal
        invariant forall id :: id in deleted <==> id in w.internal && id !in inflight.internal
      {
        var gone;
        gone, gauge' := DropExpired(all[n], now, maximumExpiry, gauge', gauge);
        if gone {
          deleted := deleted + [all[n].packetID];
        }
      }
      UpToIsEach(w, all, |all|, sweep);
      assert all[..|all|] == all;
      SweepExpires(w, all, now, maximumExpiry);
    }

    /** Deletes what has expired, returning each held unit of send quota; parked messages and
        reservations never expire. */
    method ClearExpiredInflights(now: int, maximumExpiry: int, gauge: int) returns (deleted: seq<nat>, gauge': int)
      requires inflight.View().Keyed()
      modifies inflight
      ensures Handles(Expiring(now, maximumExpiry), old(inflight.View()), inflight.View(), gauge' - gauge)
      ensures |deleted| == gauge - gauge'
      ensures forall id :: id in deleted <==> id in old(inflight.internal) && id !in inflight.internal
      ensures forall id :: id in inflight.internal ==>
                id in old(inflight.internal) && inflight.internal[id] == old(inflight.internal)[id]
      ensures forall id <- old(inflight.internal) :: var p := old(inflight.internal)[id];
                id in inflight.internal <==>
                  || p.expiry == -1 || p.expiry == -2
                  || ((p.version != 5 || p.expiry <= 0 || now <= p.expiry)
                      && (maximumExpiry <= 0 || p.created <= 0 || now <= p.created + maximumExpiry))
      ensures var full := old(inflight.sendQuota) + old(inflight.View()).Holding() - inflight.View().Holding();
              old(inflight.sendQuota) < inflight.maximumSendQuota ==>
                inflight.sendQuota == if full < inflight.maximumSendQuota then full else inflight.maximumSendQuota
    {
      ghost var w := inflight.View();
      deleted, gauge' := SweepExpired(now, maximumExpiry, gauge);
      ExpiryReturnsUnits(w, now, maximumExpiry);
    }

    /** An acknowledgement that has been written again is done with. */
    method DropFinished(tk: Packet, gauge: int, ghost base: int) returns (gauge': int)
      requires IsSent(tk)
      modifies inflight
      ensures Effect(inflight.View(), gauge' - base) == SweepOne(Effect(old(inflight.View()), gauge - base), tk, Finished)
    {
      gauge' := gauge;
      if tk.ptype == Puback || tk.ptype == Pubcomp {
        var existed := inflight.Delete(tk.packetID);
        if existed {
          gauge' := gauge' - 1;
        }
      }
    }

    method ResendAll(writes: nat, gauge: int) returns (ok: bool, gauge': int, ghost gone: set<nat>)
      requires inflight.View().Keyed()
      modifies inflight
      ensures Handles(Resending(gone), old(inflight.View()), inflight.View(), gauge' - gauge)
      ensures ok ==> gone == KeysWhere(old(inflight.internal), IsTerminal)
      ensures ok <==> |KeysWhere(old(inflight.internal), IsSent)| <= writes
    {
      gauge' := gauge;
      var all := inflight.GetAll(false);
      ghost var w := inflight.View();
      SentCounted(w, all);
      var left: nat := writes;
      for n := 0 to |all|
        invariant left + SentUpTo(all, n) == writes
        invariant Effect(inflight.View(), gauge' - gauge) == SweepUpTo(w, all, n, Finished)
      {
        var tk := all[n];
        if tk.expiry == DEFERRED || tk.expiry == RESERVED {
          continue;
        }
        if left == 0 {
          gone := ResentUpTo(w, all, n);
          SentUpToGrows(all, n + 1, |all|);
          return false, gauge', gone;
        }
        left := left - 1;
        gauge' := DropFinished(tk, gauge', gauge);
      }
      gone := ResentUpTo(w, all, |all|);
      ok := true;
    }

    /** Writes again whatever was sent; finished acknowledgements are then deleted. `writes`
        is how many writes the connection accepts. */
    method ResendInflightMessages(writes: nat, gauge: int) returns (ok: bool, gauge': int)
      requires inflight.View().Keyed()
      modifies inflight
      ensures exists gone :: Handles(Resending(gone), old(inflight.View()), inflight.View(), gauge' - gauge)
      ensures forall id :: id in inflight.internal ==>
                id in old(inflight.internal) && inflight.internal[id] == old(inflight.internal)[id]
      ensures forall id <- old(inflight.internal) :: id in inflight.internal
                || (old(inflight.internal)[id].ptype in {Puback, Pubcomp} && old(inflight.internal)[id].expiry !in {-1, -2})
      ensures ok ==> forall id <- inflight.internal :: inflight.internal[id].ptype in {Puback, Pubcomp} ==> inflight.internal[id].expiry in {-1, -2}
      ensures ok ==> inflight.internal == old(inflight.internal) - KeysWhere(old(inflight.internal), IsTerminal)
      ensures ok <==> |KeysWhere(old(inflight.internal), IsSent)| <= writes
    {
      ghost var gone;
      ok, gauge', gone := ResendAll(writes, gauge);
    }
  }

  // ---------------------------------------------------------------- sweeps over a listing

  ghost function IDs(ps: seq<Packet>): set<nat> {
    if ps == [] then {} else IDs(ps[..|ps| - 1]) + {ps[|ps| - 1].packetID}
  }

  lemma {:induction false} AllListed(m: map<nat, Packet>, all: seq<Packet>)
    requires forall id <- m :: m[id].packetID == id && m[id] in all
    ensures m - IDs(all) == map[]
    decreases |all|
  {
    if all != [] {
      var n := |all| - 1;
      assert all == all[..n] + [all[n]];
      AllListed(m - {all[n].packetID}, all[..n]);
      RemoveOneMore(m, IDs(all[..n]), all[n].packetID);
      assert (m - {all[n].packetID}) - IDs(all[..n]) == m - IDs(all);
    }
  }

  /** How many of the first `n` listed packets have been sent. */
  function SentUpTo(all: seq<Packet>, n: nat): nat
    requires n <= |all|
  {
    if n == 0 then 0 else SentUpTo(all, n - 1) + One(IsSent(all[n - 1]))
  }

  lemma {:induction false} SentUpToGrows(all: seq<Packet>, n: nat, m: nat)
    requires n <= m <= |all|
    ensures SentUpTo(all, n) <= SentUpTo(all, m)
  {
    if n < m {
      SentUpToGrows(all, n, m - 1);
    }
  }

  ghost function SentIDs(w: Window, list: seq<Packet>): set<nat> {
    set id | id in w.internal && w.internal[id] in list && IsSent(w.internal[id])
  }

  lemma SentIDsNext(w: Window, all: seq<Packet>, n: nat)
    requires w.Keyed() && ListedIn(w, all) && n < |all|
    ensures |SentIDs(w, all[..n + 1])| == |SentIDs(w, all[..n])| + One(IsSent(all[n]))
  {
    assert all[..n + 1] == all[..n] + [all[n]] && all[n] !in all[..n];
    var before := SentIDs(w, all[..n]);
    assert SentIDs(w, all[..n + 1]) == if IsSent(all[n]) then before + {all[n].packetID} else before;
  }

  lemma {:induction false} SentUpToCounts(w: Window, all: seq<Packet>, n: nat)
    requires w.Keyed() && ListedIn(w, all) && n <= |all|
    ensures SentUpTo(all, n) == |SentIDs(w, all[..n])|
  {
    if n == 0 {
      assert SentIDs(w, []) == {};
    } else {
      SentUpToCounts(w, all, n - 1);
      SentIDsNext(w, all, n - 1);
    }
  }

  lemma SentCounted(w: Window, all: seq<Packet>)
    requires w.Keyed() && Lists(w.internal, false, all)
    ensures SentUpTo(all, |all|) == |KeysWhere(w.internal, IsSent)|
  {
    ListedAll(w, all);
    SentUpToCounts(w, all, |all|);
    assert all[..|all|] == all;
    assert SentIDs(w, all) == KeysWhere(w.internal, IsSent);
  }

  /** What a pass over all entries removes. */
  datatype Sweep = Expiry(now: int, maximumExpiry: int) | Finished

  predicate Hit(s: Sweep, p: Packet) {
    match s
    case Expiry(now, maximumExpiry) => IsExpired(p, now, maximumExpiry)
    case Finished => IsTerminal(p)
  }

  predicate Frees(s: Sweep, p: Packet) { s.Expiry? && Hit(s, p) && p.qos > 0 }

  function SweepOne(e: Effect, tk: Packet, s: Sweep): Effect {
    if !Hit(s, tk) || tk.packetID !in e.window.internal then e
    else
      var w' := e.window.Delete(tk.packetID);
      Effect(if Frees(s, tk) then w'.GiveSend() else w', e.gauge - 1)
  }

  /** Removing the listed packets that are hit, one after the other. */
  function SweepEach(w: Window, list: seq<Packet>, s: Sweep): Effect {
    if list == [] then Effect(w, 0)
    else
      SweepOne(SweepEach(w, list[..|list| - 1], s), list[|list| - 1], s)
  }

  /** The same over the first `n` of them. */
  function SweepUpTo(w: Window, all: seq<Packet>, n: nat, s: Sweep): Effect
    requires n <= |all|
  {
    if n == 0 then Effect(w, 0) else SweepOne(SweepUpTo(w, all, n - 1, s), all[n - 1], s)
  }

  lemma {:induction false} UpToIsEach(w: Window, all: seq<Packet>, n: nat, s: Sweep)
    requires n <= |all|
    ensures SweepUpTo(w, all, n, s) == SweepEach(w, all[..n], s)
  {
    if n > 0 {
      UpToIsEach(w, all, n - 1, s);
      assert all[..n][..n - 1] == all[..n - 1];
    }
  }

  /** The listed packets are stored, each under its own id, and none twice. */
  ghost predicate ListedIn(w: Window, list: seq<Packet>) {
    && (forall i :: 0 <= i < |list| ==> list[i].packetID in w.internal && w.internal[list[i].packetID] == list[i])
    && (forall i, j :: 0 <= i < j < |list| ==> list[i].packetID != list[j].packetID)
  }

  /** Which sweep results are wanted: everything hit, or only what frees quota. */
  predicate Selected(s: Sweep, freed: bool, p: Packet) { if freed then Frees(s, p) else Hit(s, p) }

  function Collect(list: seq<Packet>, s: Sweep, freed: bool): set<nat> {
    if list == [] then {}
    else
      var ids := Collect(list[..|list| - 1], s, freed);
      if Selected(s, freed, list[|list| - 1]) then ids + {list[|list| - 1].packetID} else ids
  }

  lemma {:induction false} CollectIDs(w: Window, list: seq<Packet>, s: Sweep, freed: bool)
    requires ListedIn(w, list)
    ensures forall id <- Collect(list, s, freed) :: id in w.internal && w.internal[id] in list && Selected(s, freed, w.internal[id])
    ensures forall p <- list :: Selected(s, freed, p) ==> p.packetID in Collect(list, s, freed)
    decreases |list|
  {
    if list != [] {
      var n := |list| - 1;
      CollectIDs(w, list[..n], s, freed);
      assert list == list[..n] + [list[n]];
    }
  }

  function Returned(w: Window, n: nat): int {
    if w.sendQuota >= w.maxSend then w.sendQuota else Min(w.maxSend, w.sendQuota + n)
  }

  lemma CollectGrows(w: Window, list: seq<Packet>, s: Sweep, freed: bool)
    requires list != [] && ListedIn(w, list)
    ensures var n := |list| - 1;
            && list[n].packetID !in Collect(list[..n], s, freed)
            && |Collect(list, s, freed)| == |Collect(list[..n], s, freed)| + One(Selected(s, freed, list[n]))
  {
    var n := |list| - 1;
    CollectIDs(w, list[..n], s, freed);
    assert list[n] !in list[..n];
  }

  lemma {:induction false} SweepRemoves(w: Window, list: seq<Packet>, s: Sweep)
    requires ListedIn(w, list)
    ensures var e := SweepEach(w, list, s);
            && e.window.internal == w.internal - Collect(list, s, false)
            && e.window == w.(internal := e.window.internal, sendQuota := e.window.sendQuota)
            && e.gauge == 0 - |Collect(list, s, false)|
    decreases |list|
  {
    if list == [] {
      assert w.internal - {} == w.internal;
    } else {
      var n := |list| - 1;
      SweepRemoves(w, list[..n], s);
      CollectGrows(w, list, s, false);
      RemoveOneMore(w.internal, Collect(list[..n], s, false), list[n].packetID);
    }
  }

  lemma {:induction false} SweepReturns(w: Window, list: seq<Packet>, s: Sweep)
    requires ListedIn(w, list)
    ensures SweepEach(w, list, s).window.sendQuota == Returned(w, |Collect(list, s, true)|)
    decreases |list|
  {
    if list != [] {
      var n := |list| - 1;
      SweepReturns(w, list[..n], s);
      SweepStep(w, list, s);
      CollectGrows(w, list, s, true);
    }
  }

  /** The last packet of a listing frees a unit of quota when it is hit and held one. */
  lemma SweepStep(w: Window, list: seq<Packet>, s: Sweep)
    requires list != [] && ListedIn(w, list)
    ensures var before := SweepEach(w, list[..|list| - 1], s).window;
            && before.maxSend == w.maxSend
            && SweepEach(w, list, s).window.sendQuota ==
                 if Frees(s, list[|list| - 1]) then before.GiveSend().sendQuota else before.sendQuota
  {
    var n := |list| - 1;
    SweepRemoves(w, list[..n], s);
    CollectGrows(w, list, s, false);
    assert list[n].packetID in SweepEach(w, list[..n], s).window.internal;
  }

  lemma RemoveOneMore<K, V>(m: map<K, V>, gone: set<K>, k: K)
    ensures (m - gone) - {k} == m - (gone + {k})
  {
  }

  lemma ListedAll(w: Window, all: seq<Packet>)
    requires w.Keyed() && Lists(w.internal, false, all)
    ensures ListedIn(w, all) && forall id <- w.internal :: w.internal[id] in all
  {
  }

  /** Sweeping a listing of everything for expiry is `AfterExpiry`. */
  lemma SweepExpires(w: Window, all: seq<Packet>, now: int, maximumExpiry: int)
    requires w.Keyed() && Lists(w.internal, false, all)
    ensures var e := SweepEach(w, all, Expiry(now, maximumExpiry));
            && Handles(Expiring(now, maximumExpiry), w, e.window, e.gauge)
            && e.gauge == 0 - |ExpiredIDs(w, now, maximumExpiry)|
  {
    var s := Expiry(now, maximumExpiry);
    ListedAll(w, all);
    SweepRemoves(w, all, s);
    SweepReturns(w, all, s);
    CollectIDs(w, all, s, false);
    CollectIDs(w, all, s, true);
    assert Collect(all, s, false) == ExpiredIDs(w, now, maximumExpiry);
    assert Collect(all, s, true) == ExpiredHolding(w, now, maximumExpiry);
  }

  lemma SweepFinishes(w: Window, all: seq<Packet>, n: nat) returns (gone: set<nat>)
    requires w.Keyed() && Lists(w.internal, false, all) && n <= |all|
    ensures var e := SweepEach(w, all[..n], Finished); Handles(Resending(gone), w, e.window, e.gauge)
    ensures n == |all| ==> gone == KeysWhere(w.internal, IsTerminal)
  {
    ListedAll(w, all);
    SweepRemoves(w, all[..n], Finished);
    SweepReturns(w, all[..n], Finished);
    CollectIDs(w, all[..n], Finished, false);
    CollectIDs(w, all[..n], Finished, true);
    gone := Collect(all[..n], Finished, false);
    assert Collect(all[..n], Finished, true) == {};
    assert all[..|all|] == all;
  }

  lemma ResentUpTo(w: Window, all: seq<Packet>, n: nat) returns (gone: set<nat>)
    requires w.Keyed() && Lists(w.internal, false, all) && n <= |all|
    ensures var e := SweepUpTo(w, all, n, Finished); Handles(Resending(gone), w, e.window, e.gauge)
    ensures n == |all| ==> gone == KeysWhere(w.internal, IsTerminal)
  {
    UpToIsEach(w, all, n, Finished);
    gone := SweepFinishes(w, all, n);
  }

  // ---------------------------------------------------------------- the server

  /** A PUBREC is a failure at reason code 0x80 or above, or with a code PUBREC does not have. */
  predicate PubrecFails(code: nat) {
    code >= 0x80 || code !in {0x00, 0x10, 0x80, 0x83, 0x87, 0x90, 0x91, 0x97, 0x99}
  }

  predicate PubrelFails(code: nat) { code >= 0x80 || code !in {0x00, 0x92} }

  datatype PublishCode = NoError | QuotaExceeded | Disconnected | PendingWritesExceeded

  class Server {
    var infoInflight: int
    const maxInflight: nat
    const maxPacketID: nat
    const receiveMaximum: nat
    const messageExpiry: nat

    constructor (maxInflight: nat, maxPacketID: nat, receiveMaximum: nat, messageExpiry: nat)
      ensures infoInflight == 0
    {
      infoInflight := 0;
      this.maxInflight, this.maxPacketID := maxInflight, maxPacketID;
      this.receiveMaximum, this.messageExpiry := receiveMaximum, messageExpiry;
    }

    ghost function Config(cl: Client): Config
      reads cl
    {
      FlowControl.Config(cl.version >= 5, maxInflight, maxPacketID, receiveMaximum)
    }

    /** The connection refused the message that was just taken and charged. */
    method Repark(f: Inflight, next: Packet)
      modifies f
      ensures f.View() == old(f.View()).Put(next.(expiry := DEFERRED)).GiveSend().Refill()
    {
      var _ := f.Set(next.(expiry := DEFERRED));
      var _ := f.IncreaseSendQuota();
      var _ := f.ResetSendQuotaIfEmpty();
    }

    /** Sends parked messages while there is quota. The connection accepts `writes` packets. */
    method ResumeDeferredPublishes(cl: Client, writes: nat) returns (ok: bool, ghost picks: seq<nat>, ghost stopped: bool)
      requires cl.inflight.View().Keyed() && cl.inflight.View().Bounded()
      modifies cl.inflight
      ensures Handles(Resuming(picks, stopped), old(cl.inflight.View()), cl.inflight.View(), 0)
      ensures InTurn(old(cl.inflight.internal), picks)
      ensures stopped <==> !ok || (!cl.open && picks != [])
      ensures cl.open ==> |picks| <= writes + 1 && (stopped <==> |picks| == writes + 1)
      ensures cl.open && writes >= old(cl.inflight.View()).Recover().sendQuota ==> ok && !stopped
    {
      var f := cl.inflight;
      var _ := f.RecoverStarvedSendQuota();
      ghost var w := f.View();
      var left: nat := writes;
      picks, stopped := [], false;
      while f.sendQuota > 0
        invariant cl.inflight == f && Sends(w, picks, f.View())
        invariant f.View().Keyed() && (!cl.open ==> picks == [])
        invariant f.sendQuota + |picks| == w.sendQuota && left + |picks| == writes
        decreases f.sendQuota
      {
        ghost var v := f.View();
        var next, found := f.TakeNextImmediate();
        if !found {
          break;
        }
        var charged := f.DecreaseSendQuota();
        if !cl.open || left == 0 {
          Repark(f, next);
          RefusedEnds(w, picks, v, next.packetID, f.View());
          picks, stopped := picks + [next.packetID], true;
          DrainInTurn(w, picks, true, f.View());
          return !cl.open, picks, stopped;
        }
        left := left - 1;
        SendsOneMore(w, picks, v, next.packetID);
        picks := picks + [next.packetID];
      }
      ghost var v := f.View();
      var _ := f.ResetSendQuotaIfEmpty();
      SentEnds(w, picks, v);
      DrainInTurn(w, picks, false, f.View());
      ok := true;
    }

    method ProcessPuback(cl: Client, id: nat)
      modifies cl.inflight, this
      ensures Handles(OnPuback(id), old(cl.inflight.View()), cl.inflight.View(), infoInflight - old(infoInflight))
      ensures cl.inflight.internal == old(cl.inflight.internal) - {id} && cl.inflight.receiveQuota == old(cl.inflight.receiveQuota)
      ensures var live := id in old(cl.inflight.internal) && old(cl.inflight.internal)[id].expiry != -2;
              && infoInflight == old(infoInflight) - One(live)
              && cl.inflight.sendQuota == old(cl.inflight.sendQuota) + One(live && old(cl.inflight.sendQuota) < cl.inflight.maximumSendQuota)
    {
      if id !in cl.inflight.internal {
        return;
      }
      var entry := cl.inflight.internal[id];
      var existed := cl.inflight.Delete(id);
      if existed && entry.expiry != RESERVED {
        var _ := cl.inflight.IncreaseSendQuota();
        infoInflight := infoInflight - 1;
      }
    }

    method ProcessPubrec(cl: Client, id: nat, reason: nat, now: nat)
      modifies cl.inflight, this
      ensures Handles(OnPubrec(id, PubrecFails(reason), now, messageExpiry),
                      old(cl.inflight.View()), cl.inflight.View(), infoInflight - old(infoInflight))
      ensures id !in old(cl.inflight.internal) ==> cl.inflight.View() == old(cl.inflight.View()) && infoInflight == old(infoInflight)
      ensures id in old(cl.inflight.internal) && reason != 0x00 && reason != 0x10 ==>
                && cl.inflight.View() == old(cl.inflight.View()).(internal := old(cl.inflight.internal) - {id})
                && infoInflight == old(infoInflight) - 1
      ensures id in old(cl.inflight.internal) && (reason == 0x00 || reason == 0x10) ==>
                && cl.inflight.internal == old(cl.inflight.internal)[id := Packet(id, Pubrel, 1, 0, now, now + messageExpiry, "")]
                && cl.inflight.receiveQuota == old(cl.inflight.receiveQuota) - One(old(cl.inflight.receiveQuota) > 0)
                && cl.inflight.sendQuota == old(cl.inflight.sendQuota) && infoInflight == old(infoInflight)
    {
      if id !in cl.inflight.internal {
        return;
      }
      if PubrecFails(reason) {
        var existed := cl.inflight.Delete(id);
        if existed {
          infoInflight := infoInflight - 1;
        }
        return;
      }
      var _ := cl.inflight.DecreaseReceiveQuota();
      var _ := cl.inflight.Set(BuildAck(id, Pubrel, 1, now, messageExpiry));
    }

    method ProcessPubrel(cl: Client, id: nat, reason: nat, now: nat, written: bool)
      modifies cl.inflight, this
      ensures Handles(OnPubrel(id, PubrelFails(reason), now, messageExpiry, written),
                      old(cl.inflight.View()), cl.inflight.View(), infoInflight - old(infoInflight))
      ensures id !in old(cl.inflight.internal) ==> cl.inflight.View() == old(cl.inflight.View()) && infoInflight == old(infoInflight)
      ensures id in old(cl.inflight.internal) && reason != 0x00 ==>
                && cl.inflight.View() == old(cl.inflight.View()).(internal := old(cl.inflight.internal) - {id})
                && infoInflight == old(infoInflight) - 1
      ensures id in old(cl.inflight.internal) && reason == 0x00 && written ==>
                && cl.inflight.internal == old(cl.inflight.internal) - {id} && infoInflight == old(infoInflight) - 1
                && cl.inflight.receiveQuota ==
                     old(cl.inflight.receiveQuota) + One(old(cl.inflight.receiveQuota) < cl.inflight.maximumReceiveQuota)
                && cl.inflight.sendQuota == old(cl.inflight.sendQuota) + One(old(cl.inflight.sendQuota) < cl.inflight.maximumSendQuota)
      ensures id in old(cl.inflight.internal) && reason == 0x00 && !written ==>
                && cl.inflight.View() == old(cl.inflight.View()).(internal := cl.inflight.internal) && infoInflight == old(infoInflight)
                && cl.inflight.internal == old(cl.inflight.internal)[id := Packet(id, Pubcomp, 0, 0, now, now + messageExpiry, "")]
    {
      if id !in cl.inflight.internal {
        return;
      }
      if PubrelFails(reason) {
        var existed := cl.inflight.Delete(id);
        if existed {
          infoInflight := infoInflight - 1;
        }
        return;
      }
      var _ := cl.inflight.Set(BuildAck(id, Pubcomp, 0, now, messageExpiry));
      if !written {
        return;
      }
      var _ := cl.inflight.IncreaseReceiveQuota();
      var _ := cl.inflight.IncreaseSendQuota();
      var existed := cl.inflight.Delete(id);
      if existed {
        infoInflight := infoInflight - 1;
      }
    }

    method ProcessPubcomp(cl: Client, id: nat)
      modifies cl.inflight, this
      ensures Handles(OnPubcomp(id), old(cl.inflight.View()), cl.inflight.View(), infoInflight - old(infoInflight))
      ensures cl.inflight.internal == old(cl.inflight.internal) - {id} && infoInflight == old(infoInflight) - One(id in old(cl.inflight.internal))
      ensures cl.inflight.receiveQuota == old(cl.inflight.receiveQuota) + One(old(cl.inflight.receiveQuota) < cl.inflight.maximumReceiveQuota)
      ensures cl.inflight.sendQuota == old(cl.inflight.sendQuota) + One(old(cl.inflight.sendQuota) < cl.inflight.maximumSendQuota)
    {
      var _ := cl.inflight.IncreaseReceiveQuota();
      var _ := cl.inflight.IncreaseSendQuota();
      if id !in cl.inflight.internal {
        return;
      }
      var existed := cl.inflight.Delete(id);
      if existed {
        infoInflight := infoInflight - 1;
      }
    }

    /** The QoS bookkeeping of an inbound PUBLISH; routing it onwards is not part of this. */
    method ProcessPublish(cl: Client, id: nat, qos: nat, now: nat, written: bool)
      modifies cl.inflight, this
      ensures Handles(OnPublish(id, qos, now, messageExpiry, written),
                      old(cl.inflight.View()), cl.inflight.View(), infoInflight - old(infoInflight))
      ensures var known := id in old(cl.inflight.internal); var p := if known then old(cl.inflight.internal)[id] else Reservation(0, 0);
              var taken := known && (p.ptype == Pubrec || (qos == 2 && (p.ptype == Publish || p.expiry == -1 || p.expiry == -2)));
              var answered := qos == 2 && !taken && old(cl.inflight.receiveQuota) != 0;
              && cl.inflight.internal == (if answered then old(cl.inflight.internal)[id := Packet(id, Pubrec, 0, 0, now, now + messageExpiry, "")]
                                          else old(cl.inflight.internal))
              && infoInflight == old(infoInflight) + One(answered && !known)
              && cl.inflight.sendQuota == old(cl.inflight.sendQuota)
              && (0 < old(cl.inflight.receiveQuota) <= cl.inflight.maximumReceiveQuota ==>
                    cl.inflight.receiveQuota == old(cl.inflight.receiveQuota) - One(answered || (qos != 2 && qos > 0 && !taken && !written)))
    {
      var f := cl.inflight;
      if f.receiveQuota == 0 || (id in f.internal && f.internal[id].ptype == Pubrec) || qos == 0 {
        return;
      }
      var _ := f.DecreaseReceiveQuota();
      if qos == 2 {
        if id in f.internal {
          var existing := f.internal[id];
          if existing.ptype == Publish || existing.ptype == Pubrec || existing.expiry == DEFERRED || existing.expiry == RESERVED {
            var _ := f.IncreaseReceiveQuota();
            return;
          }
        }
        var isNew := f.Set(BuildAck(id, Pubrec, 0, now, messageExpiry));
        if isNew {
          infoInflight := infoInflight + 1;
        }
      } else if written {
        var _ := f.IncreaseReceiveQuota();
      }
    }

    /** Stores the message over its reservation and hands it to the writer, or takes it back. */
    method StoreAndQueue(cl: Client, msg: Packet, room: bool, ghost w: Window, ghost now: int) returns (code: PublishCode, ghost h: Handling)
      requires cl.inflight.View() == Gated(Config(cl), w).Put(Reservation(msg.packetID, now))
      requires msg.packetID !in w.internal && msg.qos > 0 && msg.expiry >= 0 && !GateShut(Config(cl), w)
      modifies cl.inflight, this
      ensures Handles(h, w, cl.inflight.View(), infoInflight - old(infoInflight))
      ensures h.Publishing? && h.c == Config(cl) && h.id == msg.packetID && h.out == msg && h.outcome != Parked
      ensures h.outcome == Queued <==> cl.open && room
      ensures code == (if cl.open then if room then NoError else PendingWritesExceeded else Disconnected)
    {
      var f := cl.inflight;
      ghost var c := Config(cl);
      var stored;
      stored, infoInflight := f.ReplaceCounted(msg, infoInflight);
      if cl.version < 5 {
        var _ := f.DecreaseSendQuota();
      }
      ReservationReplaced(Gated(c, w), msg.packetID, now, msg);
      assert stored && f.View() == Stored(c, w, msg);
      if !cl.open || !room {
        var existed := f.Delete(msg.packetID);
        if existed {
          infoInflight := infoInflight - 1;
          var _ := f.IncreaseSendQuota();
        }
        return if cl.open then PendingWritesExceeded else Disconnected, Publishing(c, msg.packetID, msg, Dropped, [], false);
      }
      return NoError, Publishing(c, msg.packetID, msg, Queued, [], false);
    }

    method PublishOne(cl: Client, out: Packet, now: int, room: bool, writes: nat) returns (code: PublishCode, ghost h: Handling)
      requires cl.inflight.View().Keyed() && cl.inflight.View().Bounded()
      requires cl.packetID <= maxPacketID <= MAX_PACKET_ID && out.qos > 0 && out.expiry >= 0
      modifies cl`packetID, cl.inflight, this
      ensures Handles(h, old(cl.inflight.View()), cl.inflight.View(), infoInflight - old(infoInflight))
      ensures code == QuotaExceeded <==> h.PublishRefused?
      ensures code == PendingWritesExceeded ==> cl.open && !room
      ensures h.Publishing? ==>
                code == if h.outcome != Dropped then NoError else if cl.open then PendingWritesExceeded else Disconnected
      ensures h.PublishRefused? <==> AtCap(old(cl.inflight.internal), maxInflight) || NoneFree(old(cl.inflight.internal), maxPacketID)
      ensures !h.PublishRefused? ==>
                && h.Publishing? && h.c == Config(cl) && h.out == out.(packetID := h.id)
                && IsNextID(old(cl.inflight.internal), old(cl.packetID), maxPacketID, h.id) && cl.packetID == h.id
                && (h.outcome == Queued <==> !GateShut(Config(cl), old(cl.inflight.View())) && cl.open && room)
    {
      var f := cl.inflight;
      ghost var w := f.View();
      var id, ok := cl.NextPacketID(maxInflight, maxPacketID, now);
      if !ok {
        return QuotaExceeded, PublishRefused;
      }
      var msg := out.(packetID := id);
      ghost var c := Config(cl);
      ReservationReplaced(w, id, now, msg);
      if cl.version >= 5 {
        if f.maximumSendQuota > 0 {
          var took := f.DecreaseSendQuota();
          if !took {
            var stored;
            stored, infoInflight := f.ReplaceCounted(Deferral(msg), infoInflight);
            assert stored && f.View() == w.Put(Deferral(msg));
            var _, picks, stopped := ResumeDeferredPublishes(cl, writes);
            return NoError, Publishing(c, id, msg, Parked, picks, stopped);
          }
        }
      } else if f.sendQuota == 0 && f.maximumSendQuota > 0 {
        f.ResetSendQuota(receiveMaximum);
      }
      assert f.View() == Gated(c, w).Put(Reservation(id, now));
      code, h := StoreAndQueue(cl, msg, room, w, now);
    }

    /** The QoS 1 and 2 part of `publishToClient`, run without interference: `out` is the
        message before it gets its packet id, `room` whether the write queue takes it. */
    method PublishToClient(cl: Client, out: Packet, now: int, room: bool, writes: nat) returns (code: PublishCode, ghost h: Handling)
      requires cl.inflight.View().Keyed() && cl.inflight.View().Bounded()
      requires cl.packetID <= maxPacketID <= MAX_PACKET_ID && out.qos > 0 && out.expiry >= 0
      modifies cl`packetID, cl.inflight, this
      ensures Handles(h, old(cl.inflight.View()), cl.inflight.View(), infoInflight - old(infoInflight))
      ensures code == QuotaExceeded <==> h.PublishRefused?
      ensures code == PendingWritesExceeded ==> cl.open && !room
      ensures h.Publishing? ==>
                code == if h.outcome != Dropped then NoError else if cl.open then PendingWritesExceeded else Disconnected
      ensures h.Publishing? && h.outcome != Parked ==>
                cl.inflight.internal == if h.outcome == Queued then old(cl.inflight.internal)[h.id := h.out] else old(cl.inflight.internal)
      ensures h.Publishing? && cl.version >= 5 ==>
                (h.outcome == Parked <==> old(cl.inflight.maximumSendQuota) > 0 && old(cl.inflight.sendQuota) == 0)
      ensures h.Publishing? && cl.version < 5 ==>
                && h.outcome != Parked
                && (old(cl.inflight.sendQuota) == 0 < old(cl.inflight.maximumSendQuota) ==>
                      && cl.inflight.maximumSendQuota == receiveMaximum
                      && cl.inflight.sendQuota == receiveMaximum - One(h.outcome == Queued && receiveMaximum > 0))
                && (old(cl.inflight.sendQuota) > 0 ==> cl.inflight.maximumSendQuota == old(cl.inflight.maximumSendQuota)
                                                       && (h.outcome == Queued ==> cl.inflight.sendQuota == old(cl.inflight.sendQuota) - 1))
      ensures h.PublishRefused? <==> AtCap(old(cl.inflight.internal), maxInflight) || NoneFree(old(cl.inflight.internal), maxPacketID)
      ensures !h.PublishRefused? ==>
                && h.Publishing? && h.c == Config(cl) && h.out == out.(packetID := h.id)
                && IsNextID(old(cl.inflight.internal), old(cl.packetID), maxPacketID, h.id) && cl.packetID == h.id
                && (h.outcome == Queued <==> !GateShut(Config(cl), old(cl.inflight.View())) && cl.open && room)
    {
      code, h := PublishOne(cl, out, now, room, writes);
    }
  }

  lemma ReservationReplaced(w: Window, id: nat, now: int, msg: Packet)
    requires msg.packetID == id
    ensures w.Put(Reservation(id, now)).Put(msg) == w.Put(msg)
    ensures w.Put(Reservation(id, now)).Put(Deferral(msg)) == w.Put(Deferral(msg))
  {
  }
}
