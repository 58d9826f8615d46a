/** Outbound QoS flow control as a step protocol. Publishers, PUBACK handlers and expiry sweeps
    act on one client concurrently; each of their steps is one critical section on the inflight
    map or on the quota. PUBREC and PUBCOMP handlers and a call of `resumeDeferredPublishes`
    are one step each. The client may answer anything at any time. */
module FlowControl {
  import opened Collections
  import opened InflightWindow

  datatype Config = Config(v5: bool, maxInflight: nat, maxPacketID: nat, serverReceiveMax: nat)

  /** How far a publisher has got with the packet id it reserved; the last stage is also that
      of a PUBACK handler or an expiry sweep. */
  datatype Stage =
    | Claimed(id: nat)   // id reserved
    | Charged(id: nat)   // passed the quota gate; in MQTT 5.0 it holds one unit of send quota
    | Parking(id: nat)   // found no send quota
    | Placed(id: nat)    // message stored, not yet queued for writing
    | Withdrawn(id: nat) // entry deleted, its unit of send quota not yet returned

  /** `client` has the ids of the messages the client was handed and has not yet answered. */
  datatype System = System(w: Window, cursor: nat, gauge: int, pubs: map<nat, Stage>, client: multiset<nat>)

  datatype Step =
    | Reserve(p: nat, id: nat, now: int)
    | Exhausted(p: nat)
    | PassGate(p: nat)
    | Park(p: nat, out: Packet)
    | Place(p: nat, out: Packet)
    | Enqueue(p: nat)
    | Withdraw(p: nat)
    | BeginPuback(p: nat, id: nat)
    | BeginExpire(p: nat, id: nat, now: int, maximumExpiry: int)
    | Restore(p: nat)
    | AckPubrec(id: nat, failed: bool, now: int, interval: int)
    | AckPubcomp(id: nat)
    | Resume(picks: seq<nat>, stopped: bool, after: Window)

  // ---------------------------------------------------------------- packet id allocation

  /** Steps of the cursor from `cursor` to `id`, wrapping after `max`. */
  function Distance(cursor: nat, max: nat, id: nat): int {
    if id > cursor then id - cursor else id + max - cursor
  }

  /** `id` is the first free packet id in cyclic order after the cursor. */
  ghost predicate IsNextID(m: map<nat, Packet>, cursor: nat, max: nat, id: nat) {
    && 1 <= id <= max && id !in m
    && forall k :: 1 <= k <= max && k !in m ==> Distance(cursor, max, id) <= Distance(cursor, max, k)
  }

  ghost predicate NoneFree(m: map<nat, Packet>, max: nat) {
    forall k :: 1 <= k <= max ==> k in m
  }

  predicate AtCap(m: map<nat, Packet>, cap: int) { cap > 0 && |m| >= cap }

  // ---------------------------------------------------------------- acknowledgements

  /** What a handler does to the window, and to the broker-wide inflight gauge. */
  datatype Effect = Effect(window: Window, gauge: int)

  function BuildAck(id: nat, ptype: PacketType, qos: nat, now: int, interval: int): Packet {
    Packet(id, ptype, qos, 0, now, now + interval, "")
  }

  function PubackEffect(w: Window, id: nat): Effect {
    if id !in w.internal then Effect(w, 0)
    else if IsReserved(w.internal[id]) then Effect(w.Delete(id), 0)
    else Effect(w.Delete(id).GiveSend(), -1)
  }

  function PubrecEffect(w: Window, id: nat, failed: bool, now: int, interval: int): Effect {
    if id !in w.internal then Effect(w, 0)
    else if failed then Effect(w.Delete(id), -1)
    else Effect(w.TakeReceive().Put(BuildAck(id, Pubrel, 1, now, interval)), 0)
  }

  function PubrelEffect(w: Window, id: nat, failed: bool, now: int, interval: int, written: bool): Effect {
    if id !in w.internal then Effect(w, 0)
    else if failed then Effect(w.Delete(id), -1)
    else
      var w' := w.Put(BuildAck(id, Pubcomp, 0, now, interval));
      if written then Effect(w'.GiveReceive().GiveSend().Delete(id), -1) else Effect(w', 0)
  }

  function PubcompEffect(w: Window, id: nat): Effect {
    var w' := w.GiveReceive().GiveSend();
    if id !in w.internal then Effect(w', 0) else Effect(w'.Delete(id), -1)
  }

  predicate IsExpired(p: Packet, now: int, maximumExpiry: int) {
    && IsSent(p)
    && (|| (p.version == 5 && 0 < p.expiry < now)
        || (maximumExpiry > 0 && p.created > 0 && now - p.created > maximumExpiry))
  }

  /** What has expired stays expired. */
  lemma ExpiryIsFinal(p: Packet, now: int, later: int, maximumExpiry: int)
    requires IsExpired(p, now, maximumExpiry) && now <= later
    ensures IsExpired(p, later, maximumExpiry)
  {
  }

  /** Nothing expires by age within the maximum, or when there is none, and everything sent and
      dated does after it; of its own only a version 5 message does, after its expiry. */
  lemma ExpiryByAge(p: Packet, now: int, maximumExpiry: int)
    requires p.version != 5 || p.expiry == 0 || now <= p.expiry
    ensures now <= p.created + maximumExpiry || maximumExpiry <= 0 || p.created <= 0 ==> !IsExpired(p, now, maximumExpiry)
    ensures p.expiry >= 0 && maximumExpiry > 0 && p.created > 0 && now > p.created + maximumExpiry ==>
              IsExpired(p, now, maximumExpiry)
  {
  }

  // ---------------------------------------------------------------- the step relation

  ghost predicate Enabled(c: Config, s: System, step: Step) {
    match step
    case Reserve(p, id, _) =>
      // the scan for an id tries one candidate at a time, so others may become free behind it
      p !in s.pubs && !AtCap(s.w.internal, c.maxInflight) && 1 <= id <= c.maxPacketID && id !in s.w.internal
    case Exhausted(p) => p !in s.pubs
    case PassGate(p) => p in s.pubs && s.pubs[p].Claimed?
    case Park(p, out) => p in s.pubs && s.pubs[p].Parking? && out.packetID == s.pubs[p].id && IsDeferred(out) && out.qos > 0
    case Place(p, out) => p in s.pubs && s.pubs[p].Charged? && out.packetID == s.pubs[p].id && out.expiry >= 0 && out.qos > 0
    case Enqueue(p) => p in s.pubs && s.pubs[p].Placed?
    case Withdraw(p) => p in s.pubs && s.pubs[p].Placed?
    case BeginPuback(p, _) => p !in s.pubs
    case BeginExpire(p, id, now, maximumExpiry) =>
      p !in s.pubs && id in s.w.internal && IsExpired(s.w.internal[id], now, maximumExpiry)
    case Restore(p) => p in s.pubs && s.pubs[p].Withdrawn?
    case AckPubrec(_, _, now, interval) => now >= 0 && interval >= 0
    case AckPubcomp(_) => true
    case Resume(picks, stopped, after) => s.w.Resumes(picks, stopped, after)
  }

  /** `ReplaceCounted`; on a collision the id is deleted, and a charged unit returned. */
  function Store(s: System, p: nat, out: Packet, charged: bool, next: map<nat, Stage>): System {
    if s.w.Replaceable(out.packetID) then
      s.(w := s.w.Put(out), gauge := s.gauge + 1, pubs := next)
    else
      s.(w := (if charged then s.w.GiveSend() else s.w).Delete(out.packetID), pubs := s.pubs - {p})
  }

  /** The entry is deleted under the map's lock; returning its unit is another step. */
  function TakeOut(s: System, p: nat, id: nat): System {
    s.(w := s.w.Delete(id), pubs := s.pubs[p := Withdrawn(id)])
  }

  function Charge(s: System, e: Effect): System {
    s.(w := e.window, gauge := s.gauge + e.gauge)
  }

  /** The client answers `id`, if it holds a message of that id. */
  function Answered(s: System, id: nat): System { s.(client := s.client - multiset{id}) }

  /** The parked messages that a resume handed over. */
  function Delivered(picks: seq<nat>, stopped: bool): seq<nat> {
    if stopped && picks != [] then picks[..|picks| - 1] else picks
  }

  ghost function Apply(c: Config, s: System, step: Step): System
    requires Enabled(c, s, step)
  {
    match step
    case Reserve(p, id, now) =>
      s.(w := s.w.Put(Reservation(id, now)), cursor := id, pubs := s.pubs[p := Claimed(id)])
    case Exhausted(_) => s
    case PassGate(p) =>
      var id := s.pubs[p].id;
      if c.v5 then
        if s.w.maxSend > 0 && s.w.sendQuota <= 0 then s.(pubs := s.pubs[p := Parking(id)])
        else s.(w := if s.w.maxSend > 0 then s.w.TakeSend() else s.w, pubs := s.pubs[p := Charged(id)])
      else
        var w := if s.w.sendQuota == 0 && s.w.maxSend > 0
                 then s.w.(sendQuota := c.serverReceiveMax, maxSend := c.serverReceiveMax) else s.w;
        s.(w := w, pubs := s.pubs[p := Charged(id)])
    case Park(p, out) => Store(s, p, out, false, s.pubs - {p})
    case Place(p, out) =>
      var s' := Store(s, p, out, c.v5 && s.w.maxSend > 0, s.pubs[p := Placed(out.packetID)]);
      if !c.v5 && s.w.Replaceable(out.packetID) then s'.(w := s'.w.TakeSend()) else s'
    case Enqueue(p) => s.(pubs := s.pubs - {p}, client := s.client + multiset{s.pubs[p].id})
    case Withdraw(p) =>
      if s.pubs[p].id in s.w.internal then TakeOut(s, p, s.pubs[p].id) else s.(pubs := s.pubs - {p})
    case BeginPuback(p, id) =>
      var a := Answered(s, id);
      if id !in s.w.internal then a
      else if IsReserved(s.w.internal[id]) then a.(w := s.w.Delete(id))
      else TakeOut(a, p, id)
    case BeginExpire(p, id, _, _) =>
      if s.w.internal[id].qos > 0 then TakeOut(s, p, id) else s.(w := s.w.Delete(id), gauge := s.gauge - 1)
    case Restore(p) => s.(w := s.w.GiveSend(), gauge := s.gauge - 1, pubs := s.pubs - {p})
    case AckPubrec(id, failed, now, interval) =>
      Charge(if failed then Answered(s, id) else s, PubrecEffect(s.w, id, failed, now, interval))
    case AckPubcomp(id) => Charge(Answered(s, id), PubcompEffect(s.w, id))
    case Resume(picks, stopped, after) => s.(w := after, client := s.client + multiset(Delivered(picks, stopped)))
  }

  // ---------------------------------------------------------------- the protocol invariant

  predicate HoldsUnit(st: Stage) { st.Charged? || st.Withdrawn? }
  predicate IsWithdrawn(st: Stage) { st.Withdrawn? }
  predicate IsPlaced(st: Stage) { st.Placed? }

  /** Units of send quota accounted for: free, held by sent messages, held by publishers. */
  function Total(s: System): int {
    s.w.sendQuota + s.w.Holding() + |KeysWhere(s.pubs, HoldsUnit)|
  }

  /** The number of deleted entries whose unit is on its way back. */
  function Away(s: System): nat { |KeysWhere(s.pubs, IsWithdrawn)| }

  predicate Owns(st: Stage, id: nat) { !st.Withdrawn? && st.id == id }

  /** The entry of a publisher's id is in the state its stage needs. */
  ghost predicate Stands(st: Stage, w: Window) {
    st.id in w.internal && (if st.Placed? then HoldsQuota(w.internal[st.id]) else IsReserved(w.internal[st.id]))
  }

  /** Publishers own distinct ids, with entries to match. */
  ghost predicate Ownership(s: System) {
    && (forall p <- s.pubs :: !s.pubs[p].Withdrawn? ==> Stands(s.pubs[p], s.w))
    && (forall p <- s.pubs, q <- s.pubs :: p != q && !s.pubs[q].Withdrawn? ==> !Owns(s.pubs[p], s.pubs[q].id))
  }

  ghost predicate IsOwned(s: System, id: nat) { exists p :: p in s.pubs && Owns(s.pubs[p], id) }

  /** No reservation is left behind: each belongs to a publisher still at work. */
  ghost predicate NoOrphans(s: System) {
    forall id <- s.w.internal :: IsReserved(s.w.internal[id]) ==> IsOwned(s, id)
  }

  /** What every stored entry satisfies. */
  ghost predicate WellFormed(c: Config, w: Window) {
    && w.Keyed()
    && (forall id <- w.internal :: 1 <= id <= c.maxPacketID)
    && (forall id <- w.internal :: IsReserved(w.internal[id]) || w.internal[id].qos > 0)
  }

  /** What holds of the map, its owners, its size, the gauge and the range of the quotas. */
  ghost predicate Structure(c: Config, s: System) {
    && WellFormed(c, s.w) && s.w.Bounded() && s.w.maxSend > 0
    && Ownership(s) && NoOrphans(s)
    && s.cursor <= c.maxPacketID
    && (c.maxInflight > 0 ==> |s.w.internal| <= c.maxInflight)
    && s.gauge == s.w.Counted() + Away(s)
  }

  /** No more units are in play than the window has. */
  ghost predicate Solvent(s: System) { Total(s) <= s.w.maxSend }

  ghost predicate Inv(c: Config, s: System) { Structure(c, s) && Solvent(s) }

  /** The client has been sent the message and no publisher can still withdraw it. */
  ghost predicate OnWire(s: System, id: nat) {
    id in s.w.internal && HoldsQuota(s.w.internal[id]) && !IsOwned(s, id)
  }

  ghost predicate IsParked(s: System, id: nat) { id in s.w.internal && IsDeferred(s.w.internal[id]) }
  ghost predicate IsSentEntry(s: System, id: nat) { id in s.w.internal && HoldsQuota(s.w.internal[id]) }

  /** The step deletes or replaces an entry that a publisher at work owns: a stored message
      expires before it is queued, or the client answers an id that has been given out again.
      A PUBREC over a stored message leaves its publisher a sent entry and does no harm. */
  ghost predicate Disturbs(s: System, step: Step) {
    match step
    case BeginPuback(_, id) => IsOwned(s, id)
    case BeginExpire(_, id, _, _) => IsOwned(s, id)
    case AckPubrec(id, failed, _, _) => IsOwned(s, id) && (failed || !IsSentEntry(s, id))
    case AckPubcomp(id) => IsOwned(s, id)
    case _ => false
  }

  /** The step credits an answer with a unit that no entry held. */
  ghost predicate Credits(s: System, step: Step) {
    match step
    case BeginPuback(_, id) => IsParked(s, id)
    case AckPubrec(id, failed, _, _) => !failed && IsParked(s, id)
    case AckPubcomp(id) => !IsSentEntry(s, id) && s.w.sendQuota < s.w.maxSend
    case _ => false
  }

  /** The step deletes a sent message without returning its unit. */
  ghost predicate Loses(s: System, step: Step) { step.AckPubrec? && step.failed && IsSentEntry(s, step.id) }

  ghost function Change(s: System, step: Step): int { One(Credits(s, step)) - One(Loses(s, step)) }

  /** What a step keeps: the structure and, while the system is solvent, the units in play. */
  ghost predicate Keeps(c: Config, s: System, s': System) {
    && Structure(c, s') && s'.w.maxSend == s.w.maxSend
    && (Solvent(s) ==> Total(s') == Total(s))
  }

  /** Only `p`'s stage and the entry `id` differ, and no other publisher owns `id`. */
  ghost predicate TouchesOnly(s: System, s': System, p: nat, id: nat) {
    && (forall q :: q != p ==> (q in s.pubs <==> q in s'.pubs))
    && (forall q <- s.pubs :: q != p ==> s'.pubs[q] == s.pubs[q] && !Owns(s.pubs[q], id))
    && (forall k :: k != id ==> (k in s.w.internal <==> k in s'.w.internal))
    && (forall k <- s.w.internal :: k != id ==> s'.w.internal[k] == s.w.internal[k])
  }

  /** A step on `p`'s own id leaves every other publisher what it owns. */
  lemma OthersKeepTheirs(s: System, s': System, p: nat, id: nat)
    requires Ownership(s) && NoOrphans(s) && TouchesOnly(s, s', p, id)
    requires p in s.pubs && !s.pubs[p].Withdrawn? ==> s.pubs[p].id == id
    requires p in s'.pubs && !s'.pubs[p].Withdrawn? ==> s'.pubs[p].id == id && Stands(s'.pubs[p], s'.w)
    requires id in s'.w.internal && IsReserved(s'.w.internal[id]) ==> p in s'.pubs && Owns(s'.pubs[p], id)
    ensures Ownership(s') && NoOrphans(s')
  {
    forall k <- s'.w.internal | IsReserved(s'.w.internal[k]) ensures IsOwned(s', k) {
      if k != id {
        var q :| q in s.pubs && Owns(s.pubs[q], k);
        assert q in s'.pubs && Owns(s'.pubs[q], k);
      }
    }
  }

  lemma StageCounts(s: System, p: nat, st: Stage)
    ensures |KeysWhere(s.pubs[p := st], HoldsUnit)| ==
              |KeysWhere(s.pubs, HoldsUnit)| - One(p in s.pubs && HoldsUnit(s.pubs[p])) + One(HoldsUnit(st))
    ensures |KeysWhere(s.pubs[p := st], IsWithdrawn)| ==
              |KeysWhere(s.pubs, IsWithdrawn)| - One(p in s.pubs && IsWithdrawn(s.pubs[p])) + One(IsWithdrawn(st))
  {
    CountUpdate(s.pubs, HoldsUnit, p, st);
    CountUpdate(s.pubs, IsWithdrawn, p, st);
  }

  lemma LeaveCounts(s: System, p: nat)
    requires p in s.pubs
    ensures |KeysWhere(s.pubs - {p}, HoldsUnit)| == |KeysWhere(s.pubs, HoldsUnit)| - One(HoldsUnit(s.pubs[p]))
    ensures |KeysWhere(s.pubs - {p}, IsWithdrawn)| == |KeysWhere(s.pubs, IsWithdrawn)| - One(IsWithdrawn(s.pubs[p]))
  {
    CountRemove(s.pubs, HoldsUnit, p);
    CountRemove(s.pubs, IsWithdrawn, p);
  }

  lemma KeepsReserve(c: Config, s: System, p: nat, id: nat, now: int)
    requires Structure(c, s) && Enabled(c, s, Reserve(p, id, now))
    ensures Keeps(c, s, Apply(c, s, Reserve(p, id, now)))
  {
    OthersKeepTheirs(s, Apply(c, s, Reserve(p, id, now)), p, id);
    PutCounts(s.w, Reservation(id, now));
    StageCounts(s, p, Claimed(id));
    MapUpdateSize(s.w.internal, id, Reservation(id, now));
  }

  lemma KeepsPassGate(c: Config, s: System, p: nat)
    requires c.v5 && Structure(c, s) && Enabled(c, s, PassGate(p))
    ensures Keeps(c, s, Apply(c, s, PassGate(p)))
  {
    var s' := Apply(c, s, PassGate(p));
    StageCounts(s, p, s'.pubs[p]);
    OthersKeepTheirs(s, s', p, s.pubs[p].id);
  }

  /** Storing the message over its reservation, by whichever path. */
  lemma StoreOwners(s: System, s': System, p: nat, out: Packet)
    requires Ownership(s) && NoOrphans(s) && p in s.pubs && Owns(s.pubs[p], out.packetID)
    requires s'.w == s.w.Put(out) && !IsReserved(out)
    requires s'.pubs == s.pubs - {p} || (s'.pubs == s.pubs[p := Placed(out.packetID)] && HoldsQuota(out))
    ensures Ownership(s') && NoOrphans(s')
  {
    OthersKeepTheirs(s, s', p, out.packetID);
  }

  lemma KeepsPark(c: Config, s: System, p: nat, out: Packet)
    requires Structure(c, s) && Enabled(c, s, Park(p, out))
    ensures s.w.Replaceable(out.packetID) && Keeps(c, s, Apply(c, s, Park(p, out)))
  {
    StoreOwners(s, Apply(c, s, Park(p, out)), p, out);
    PutCounts(s.w, out);
    LeaveCounts(s, p);
    MapUpdateSize(s.w.internal, out.packetID, out);
  }

  lemma KeepsPlace(c: Config, s: System, p: nat, out: Packet)
    requires c.v5 && Structure(c, s) && Enabled(c, s, Place(p, out))
    ensures s.w.Replaceable(out.packetID) && Keeps(c, s, Apply(c, s, Place(p, out)))
  {
    StoreOwners(s, Apply(c, s, Place(p, out)), p, out);
    PutCounts(s.w, out);
    StageCounts(s, p, Placed(out.packetID));
    MapUpdateSize(s.w.internal, out.packetID, out);
  }

  lemma KeepsEnqueue(c: Config, s: System, p: nat)
    requires Structure(c, s) && Enabled(c, s, Enqueue(p))
    ensures Keeps(c, s, Apply(c, s, Enqueue(p)))
  {
    var s' := Apply(c, s, Enqueue(p));
    LeaveCounts(s, p);
    OthersKeepTheirs(s, s', p, s.pubs[p].id);
  }

  lemma TakeOutOwners(s: System, p: nat, id: nat)
    requires Ownership(s) && NoOrphans(s)
    requires if p in s.pubs then Owns(s.pubs[p], id) else !IsOwned(s, id)
    ensures Ownership(TakeOut(s, p, id)) && NoOrphans(TakeOut(s, p, id))
  {
    assert forall q <- s.pubs | q != p :: Owns(s.pubs[q], id) ==> IsOwned(s, id);
    OthersKeepTheirs(s, TakeOut(s, p, id), p, id);
  }

  /** Deleting a sent message moves its unit to whoever deleted it. */
  lemma KeepsTakeOut(c: Config, s: System, p: nat, id: nat)
    requires Structure(c, s) && id in s.w.internal && HoldsQuota(s.w.internal[id])
    requires if p in s.pubs then Owns(s.pubs[p], id) && s.pubs[p].Placed? else !IsOwned(s, id)
    ensures Keeps(c, s, TakeOut(s, p, id))
  {
    TakeOutOwners(s, p, id);
    DeleteCounts(s.w, id);
    StageCounts(s, p, Withdrawn(id));
    MapRemoveSize(s.w.internal, id);
  }

  lemma RestoreOwners(s: System, s': System, p: nat)
    requires Ownership(s) && NoOrphans(s) && p in s.pubs && s.pubs[p].Withdrawn?
    requires s'.w.internal == s.w.internal && s'.pubs == s.pubs - {p}
    ensures Ownership(s') && NoOrphans(s')
  {
    forall k <- s.w.internal | IsReserved(s.w.internal[k]) ensures IsOwned(s', k) {
      var q :| q in s.pubs && Owns(s.pubs[q], k);
      assert q in s'.pubs && Owns(s'.pubs[q], k);
    }
  }

  lemma KeepsRestore(c: Config, s: System, p: nat)
    requires Structure(c, s) && Enabled(c, s, Restore(p))
    ensures Keeps(c, s, Apply(c, s, Restore(p)))
  {
    LeaveCounts(s, p);
    RestoreOwners(s, Apply(c, s, Restore(p)), p);
  }

  /** Changing an entry no publisher owns, to anything but a reservation, disturbs none. */
  lemma OthersUndisturbed(s: System, s': System, id: nat)
    requires Ownership(s) && NoOrphans(s) && s'.pubs == s.pubs && !IsOwned(s, id)
    requires forall k :: k != id ==> (k in s.w.internal <==> k in s'.w.internal)
    requires forall k <- s.w.internal :: k != id ==> s'.w.internal[k] == s.w.internal[k]
    requires id in s'.w.internal ==> !IsReserved(s'.w.internal[id])
    ensures Ownership(s') && NoOrphans(s')
  {
  }

  /** What an answer keeps: the structure, and the units in play up to its credit or loss. */
  ghost predicate KeepsUpTo(c: Config, s: System, s': System, change: int) {
    && Structure(c, s') && s'.w.maxSend == s.w.maxSend
    && (Solvent(s) ==> Total(s') == Total(s) + change)
  }

  lemma KeepsPuback(c: Config, s: System, p: nat, id: nat)
    requires Structure(c, s) && p !in s.pubs && !IsOwned(s, id)
    ensures KeepsUpTo(c, s, Apply(c, s, BeginPuback(p, id)), Change(s, BeginPuback(p, id)))
  {
    if id in s.w.internal {
      TakeOutOwners(s, p, id);
      DeleteCounts(s.w, id);
      StageCounts(s, p, Withdrawn(id));
      MapRemoveSize(s.w.internal, id);
    }
  }

  /** Deleting an entry that no publisher owns, if it is there. */
  lemma DeletedKeeps(c: Config, s: System, s': System, id: nat)
    requires WellFormed(c, s.w) && Ownership(s) && NoOrphans(s) && !IsOwned(s, id)
    requires s'.pubs == s.pubs && s'.w.internal == s.w.internal - {id}
    ensures WellFormed(c, s'.w) && Ownership(s') && NoOrphans(s') && |s'.w.internal| <= |s.w.internal|
    ensures s'.w.Holding() == s.w.Holding() - One(IsSentEntry(s, id))
    ensures s'.w.Counted() == s.w.Counted() - One(id in s.w.internal)
  {
    assert id in s.w.internal ==> !IsReserved(s.w.internal[id]);
    OthersUndisturbed(s, s', id);
    DeleteCounts(s.w, id);
    MapRemoveSize(s.w.internal, id);
  }

  /** Quotas, gauge and what the client holds have no part in who owns what. */
  lemma SameEntries(s: System, s': System)
    requires Ownership(s) && NoOrphans(s) && s'.w.internal == s.w.internal && s'.pubs == s.pubs
    ensures Ownership(s') && NoOrphans(s')
  {
    assert forall id :: IsOwned(s, id) ==> IsOwned(s', id);
  }

  /** A PUBCOMP for an id that is not stored changes nothing but the quotas. */
  lemma KeepsLatePubcomp(c: Config, s: System, id: nat)
    requires Structure(c, s) && id !in s.w.internal
    ensures KeepsUpTo(c, s, Apply(c, s, AckPubcomp(id)), Change(s, AckPubcomp(id)))
  {
    SameEntries(s, Apply(c, s, AckPubcomp(id)));
  }

  lemma KeepsPubcomp(c: Config, s: System, id: nat)
    requires Structure(c, s) && !IsOwned(s, id)
    ensures KeepsUpTo(c, s, Apply(c, s, AckPubcomp(id)), Change(s, AckPubcomp(id)))
  {
    if id in s.w.internal {
      DeletedKeeps(c, s, Apply(c, s, AckPubcomp(id)), id);
    } else {
      KeepsLatePubcomp(c, s, id);
    }
  }

  lemma KeepsFailedPubrec(c: Config, s: System, step: Step)
    requires Structure(c, s) && Enabled(c, s, step) && step.AckPubrec? && step.failed && !IsOwned(s, step.id)
    ensures KeepsUpTo(c, s, Apply(c, s, step), Change(s, step))
  {
    assert step.id !in s.w.internal ==> s.w.internal - {step.id} == s.w.internal;
    DeletedKeeps(c, s, Apply(c, s, step), step.id);
  }

  /** The PUBREL that a PUBREC stores stands for the message, also in its publisher's hands. */
  lemma PubrelOwners(s: System, s': System, id: nat)
    requires Ownership(s) && NoOrphans(s) && s'.pubs == s.pubs && (IsOwned(s, id) ==> IsSentEntry(s, id))
    requires id in s.w.internal && IsSentEntry(s', id) && s'.w.internal == s.w.internal[id := s'.w.internal[id]]
    ensures Ownership(s') && NoOrphans(s')
  {
    if IsOwned(s, id) {
      var p :| p in s.pubs && Owns(s.pubs[p], id);
      OthersKeepTheirs(s, s', p, id);
    } else {
      OthersUndisturbed(s, s', id);
    }
  }

  lemma PubrelCounts(c: Config, s: System, s': System, ack: Packet)
    requires WellFormed(c, s.w) && ack.packetID in s.w.internal && !IsReserved(s.w.internal[ack.packetID]) && HoldsQuota(ack)
    requires s'.w.internal == s.w.internal[ack.packetID := ack]
    ensures WellFormed(c, s'.w) && |s'.w.internal| == |s.w.internal| && s'.w.Counted() == s.w.Counted()
    ensures s'.w.Holding() == s.w.Holding() + One(IsParked(s, ack.packetID))
  {
    PutCounts(s.w, ack);
    MapUpdateSize(s.w.internal, ack.packetID, ack);
  }

  lemma KeepsPubrec(c: Config, s: System, step: Step)
    requires Structure(c, s) && Enabled(c, s, step) && step.AckPubrec? && !Disturbs(s, step)
    ensures KeepsUpTo(c, s, Apply(c, s, step), Change(s, step))
  {
    if step.failed {
      KeepsFailedPubrec(c, s, step);
    } else if step.id in s.w.internal {
      PubrelOwners(s, Apply(c, s, step), step.id);
      PubrelCounts(c, s, Apply(c, s, step), BuildAck(step.id, Pubrel, 1, step.now, step.interval));
    }
  }

  /** A PUBACK that nothing interrupts is its two steps. */
  lemma PubackInTwoSteps(c: Config, s: System, p: nat, id: nat)
    requires p !in s.pubs && id in s.w.internal && IsCounted(s.w.internal[id])
    ensures var s' := Apply(c, s, BeginPuback(p, id));
            Enabled(c, s', Restore(p)) && Apply(c, s', Restore(p)) == Charge(Answered(s, id), PubackEffect(s.w, id))
  {
    assert s.pubs[p := Withdrawn(id)] - {p} == s.pubs;
  }

  // ---------------------------------------------------------------- resuming parked messages

  /** The window after each of `picks` is sent, spending one unit on each. */
  function SendAll(w: Window, picks: seq<nat>): Window
    decreases |picks|
  {
    if picks == [] || picks[0] !in w.internal then w
    else SendAll(w.Release(picks[0]).TakeSend(), picks[1..])
  }

  /** Neither repair of lost quota has anything to do. */
  ghost predicate HealsIdle(w: Window) { !w.Starved() && !w.Leaking() }

  /** No repair fires for want of a unit that is only on its way back: the first repair adds
      one unit to what is on its way, the second adds the whole window. */
  ghost predicate ResumeSafe(s: System) {
    (s.w.Starved() ==> Away(s) < s.w.maxSend) && (s.w.Leaking() ==> Away(s) == 0)
  }

  /** A publisher at work shows in the map: with nothing but parked messages, all units held
      outside the quota are on their way back. */
  lemma NothingCommitted(s: System)
    requires Ownership(s) && forall id <- s.w.internal :: IsDeferred(s.w.internal[id])
    ensures Total(s) == s.w.sendQuota + Away(s)
  {
    assert KeysWhere(s.w.internal, HoldsQuota) == {};
    assert KeysWhere(s.pubs, HoldsUnit) == KeysWhere(s.pubs, IsWithdrawn);
  }

  /** In a balanced system the safe resumes are those that repair nothing. */
  lemma BalancedSafety(c: Config, s: System)
    requires Structure(c, s) && Total(s) == s.w.maxSend
    ensures ResumeSafe(s) <==> HealsIdle(s.w)
    ensures Away(s) == 0 ==> HealsIdle(s.w)
  {
    if s.w.Starved() || s.w.Leaking() { NothingCommitted(s); }
  }

  lemma KeepsRelease(c: Config, s: System, id: nat)
    requires Structure(c, s) && s.w.sendQuota > 0 && s.w.IsNextDeferred(id)
    ensures var s' := s.(w := s.w.Release(id).TakeSend()); Structure(c, s') && Total(s') == Total(s)
  {
    var s' := s.(w := s.w.Release(id).TakeSend());
    ReleaseCounts(s.w, id);
    MapUpdateSize(s.w.internal, id, s.w.internal[id].(expiry := 0));
    OthersUndisturbed(s, s', id);
  }

  /** A pass that refills nothing is exactly the sends it makes. */
  lemma {:induction false} DrainIsSends(w: Window, picks: seq<nat>, stopped: bool, after: Window)
    requires w.Keyed() && w.Bounded() && w.Drains(picks, stopped, after) && !w.Leaking()
    ensures after == SendAll(w, Delivered(picks, stopped))
    decreases |picks|
  {
    if picks == [] {
    } else if |picks| == 1 && stopped {
      RefusedSendUndone(w, picks[0]);
    } else {
      DrainIsSends(w.Release(picks[0]).TakeSend(), picks[1..], stopped, after);
      assert Delivered(picks, stopped)[1..] == Delivered(picks[1..], stopped);
    }
  }

  lemma {:induction false} KeepsDrain(c: Config, s: System, picks: seq<nat>, stopped: bool, after: Window)
    requires Structure(c, s) && s.w.Drains(picks, stopped, after) && !s.w.Leaking()
    ensures Structure(c, s.(w := after)) && Total(s.(w := after)) == Total(s) && after.maxSend == s.w.maxSend
    decreases |picks|
  {
    if picks == [] {
    } else if |picks| == 1 && stopped {
      RefusedSendUndone(s.w, picks[0]);
    } else {
      var s1 := s.(w := s.w.Release(picks[0]).TakeSend());
      KeepsRelease(c, s, picks[0]);
      KeepsDrain(c, s1, picks[1..], stopped, after);
      assert s1.(w := after) == s.(w := after);
    }
  }

  /** The first repair adds one unit to those on their way back. */
  lemma StarvedResume(c: Config, s: System, picks: seq<nat>, stopped: bool, after: Window)
    requires Structure(c, s) && s.w.Resumes(picks, stopped, after) && s.w.Starved()
    ensures Structure(c, s.(w := after)) && after.maxSend == s.w.maxSend && Total(s.(w := after)) == 1 + Away(s)
  {
    var r := s.(w := s.w.Recover());
    NothingCommitted(r);
    KeepsDrain(c, r, picks, stopped, after);
    assert r.(w := after) == s.(w := after);
  }

  /** The second repair adds the whole window to them. */
  lemma LeakingResume(c: Config, s: System, picks: seq<nat>, stopped: bool, after: Window)
    requires Structure(c, s) && s.w.Resumes(picks, stopped, after) && s.w.Leaking()
    ensures Structure(c, s.(w := after)) && after.maxSend == s.w.maxSend && Total(s.(w := after)) == s.w.maxSend + Away(s)
  {
    NothingCommitted(s.(w := after));
  }

  /** What a resume does to the window: it keeps the structure always, keeps the system
      solvent exactly when it is safe, and otherwise is exactly the sends it makes. */
  ghost predicate ResumeLaw(c: Config, s: System, s': System, sent: Window) {
    && Structure(c, s') && s'.w.maxSend == s.w.maxSend && Total(s) <= Total(s')
    && (Solvent(s) ==> (Solvent(s') <==> ResumeSafe(s)))
    && (HealsIdle(s.w) ==> Total(s') == Total(s) && s'.w == sent)
  }

  lemma RepairLaw(c: Config, s: System, picks: seq<nat>, stopped: bool, after: Window)
    requires Structure(c, s) && s.w.Resumes(picks, stopped, after) && !HealsIdle(s.w)
    ensures ResumeLaw(c, s, s.(w := after), s.w)
  {
    NothingCommitted(s);
    if s.w.Starved() {
      StarvedResume(c, s, picks, stopped, after);
    } else {
      LeakingResume(c, s, picks, stopped, after);
    }
  }

  lemma KeepsResume(c: Config, s: System, picks: seq<nat>, stopped: bool, after: Window)
    requires Structure(c, s) && s.w.Resumes(picks, stopped, after)
    ensures ResumeLaw(c, s, Apply(c, s, Resume(picks, stopped, after)), SendAll(s.w, Delivered(picks, stopped)))
  {
    if HealsIdle(s.w) {
      DrainIsSends(s.w, picks, stopped, after);
      KeepsDrain(c, s, picks, stopped, after);
    } else {
      RepairLaw(c, s, picks, stopped, after);
    }
    SameEntries(s.(w := after), Apply(c, s, Resume(picks, stopped, after)));
  }

  // ---------------------------------------------------------------- whole runs

  /** Every step but a resume that disturbs no publisher keeps the structure, and the units in
      play up to its credit or loss. */
  lemma KeepsStep(c: Config, s: System, step: Step)
    requires c.v5 && Structure(c, s) && Enabled(c, s, step) && !Disturbs(s, step)
    requires !step.Resume?
    ensures KeepsUpTo(c, s, Apply(c, s, step), Change(s, step))
  {
    match step
    case Reserve(p, id, now) => KeepsReserve(c, s, p, id, now);
    case Exhausted(_) =>
    case PassGate(p) => KeepsPassGate(c, s, p);
    case Park(p, out) => KeepsPark(c, s, p, out);
    case Place(p, out) => KeepsPlace(c, s, p, out);
    case Enqueue(p) => KeepsEnqueue(c, s, p);
    case Withdraw(p) => KeepsTakeOut(c, s, p, s.pubs[p].id);
    case BeginPuback(p, id) => KeepsPuback(c, s, p, id);
    case BeginExpire(p, id, _, _) => KeepsTakeOut(c, s, p, id);
    case Restore(p) => KeepsRestore(c, s, p);
    case AckPubrec(_, _, _, _) => KeepsPubrec(c, s, step);
    case AckPubcomp(id) => KeepsPubcomp(c, s, id);
  }

  /** The step puts no more units in play than the window has: a resume repairs nothing that
      is only on its way back, and an answer is not credited with a unit while none is missing. */
  ghost predicate Safe(s: System, step: Step) {
    if step.Resume? then ResumeSafe(s) else Credits(s, step) ==> Total(s) < s.w.maxSend
  }

  lemma StepKeepsInv(c: Config, s: System, step: Step)
    requires c.v5 && Structure(c, s) && Enabled(c, s, step) && !Disturbs(s, step)
    ensures var s' := Apply(c, s, step);
            && Structure(c, s') && s'.w.maxSend == s.w.maxSend
            && (Solvent(s) ==> (Solvent(s') <==> Safe(s, step)))
            && (Total(s) == s.w.maxSend && !Loses(s, step) && Safe(s, step) ==> Total(s') == s.w.maxSend)
  {
    if step.Resume? {
      KeepsResume(c, s, step.picks, step.stopped, step.after);
      if Total(s) == s.w.maxSend { BalancedSafety(c, s); }
    } else {
      KeepsStep(c, s, step);
    }
  }

  /** A step that disturbs a publisher leaves it without the entry its stage needs. */
  lemma DisturbedBreaks(c: Config, s: System, step: Step)
    requires Structure(c, s) && Enabled(c, s, step) && Disturbs(s, step)
    ensures !Ownership(Apply(c, s, step))
  {
    var p :| p in s.pubs && Owns(s.pubs[p], step.id);
    var s' := Apply(c, s, step);
    assert p in s'.pubs && s'.pubs[p] == s.pubs[p] && !Stands(s'.pubs[p], s'.w);
  }

  /** A connected client with nothing in flight and its whole send window free. */
  ghost predicate Fresh(c: Config, s: System) {
    && s.w.internal == map[] && s.pubs == map[] && s.gauge == 0 && s.cursor <= c.maxPacketID
    && 0 < s.w.maxSend == s.w.sendQuota && 0 <= s.w.receiveQuota <= s.w.maxReceive
    && s.client == multiset{}
  }

  ghost predicate Takes(c: Config, s: System, step: Step, s': System) {
    Enabled(c, s, step) && s' == Apply(c, s, step)
  }

  ghost predicate IsPath(c: Config, states: seq<System>, steps: seq<Step>) {
    && |states| == |steps| + 1
    && forall i :: 0 <= i < |steps| ==> Takes(c, states[i], steps[i], states[i + 1])
  }

  /** Any interleaving of publishers, sweeps, resumes and whatever answers the client sends. */
  ghost predicate IsRun(c: Config, states: seq<System>, steps: seq<Step>) {
    IsPath(c, states, steps) && Fresh(c, states[0])
  }

  /** None of the first `n` steps disturbs a publisher. */
  ghost predicate QuietUpTo(states: seq<System>, steps: seq<Step>, n: nat)
    requires |states| == |steps| + 1 && n <= |steps|
  {
    forall k :: 0 <= k < n ==> !Disturbs(states[k], steps[k])
  }

  /** Each of the first `n` steps is safe. */
  ghost predicate SafeUpTo(states: seq<System>, steps: seq<Step>, n: nat)
    requires |states| == |steps| + 1 && n <= |steps|
  {
    forall k :: 0 <= k < n ==> Safe(states[k], steps[k])
  }

  ghost predicate LosslessUpTo(states: seq<System>, steps: seq<Step>, n: nat)
    requires |states| == |steps| + 1 && n <= |steps|
  {
    forall k :: 0 <= k < n ==> !Loses(states[k], steps[k])
  }

  lemma FreshInv(c: Config, s: System)
    requires Fresh(c, s)
    ensures Structure(c, s) && Total(s) == s.w.maxSend
  {
  }

  /** What holds after the first `i` steps. */
  ghost predicate Kept(c: Config, states: seq<System>, steps: seq<Step>, i: nat)
    requires |states| == |steps| + 1 && i < |states|
  {
    && Structure(c, states[i]) && states[i].w.maxSend == states[0].w.maxSend
    && (SafeUpTo(states, steps, i) ==> Solvent(states[i]))
    && (SafeUpTo(states, steps, i) && LosslessUpTo(states, steps, i) ==> Total(states[i]) == states[0].w.maxSend)
  }

  lemma NextKept(c: Config, states: seq<System>, steps: seq<Step>, i: nat)
    requires c.v5 && IsPath(c, states, steps) && i < |steps| && Kept(c, states, steps, i)
    requires !Disturbs(states[i], steps[i])
    ensures Kept(c, states, steps, i + 1)
  {
    assert Takes(c, states[i], steps[i], states[i + 1]);
    StepKeepsInv(c, states[i], steps[i]);
    if SafeUpTo(states, steps, i + 1) {
      assert SafeUpTo(states, steps, i) && Safe(states[i], steps[i]);
    }
    if LosslessUpTo(states, steps, i + 1) {
      assert LosslessUpTo(states, steps, i) && !Loses(states[i], steps[i]);
    }
  }

  lemma {:induction false} RunKeepsInv(c: Config, states: seq<System>, steps: seq<Step>, i: nat)
    requires c.v5 && IsRun(c, states, steps) && i < |states| && QuietUpTo(states, steps, i)
    ensures Kept(c, states, steps, i)
  {
    if i == 0 {
      FreshInv(c, states[0]);
    } else {
      RunKeepsInv(c, states, steps, i - 1);
      NextKept(c, states, steps, i - 1);
    }
  }

  /** A run keeps its structure throughout if and only if no step disturbs a publisher. */
  lemma StructureIffQuiet(c: Config, states: seq<System>, steps: seq<Step>)
    requires c.v5 && IsRun(c, states, steps)
    ensures (forall i :: 0 <= i < |states| ==> Structure(c, states[i])) <==> QuietUpTo(states, steps, |steps|)
  {
    if QuietUpTo(states, steps, |steps|) {
      forall i | 0 <= i < |states| ensures Structure(c, states[i]) {
        assert QuietUpTo(states, steps, i);
        RunKeepsInv(c, states, steps, i);
      }
    }
    if forall i :: 0 <= i < |states| ==> Structure(c, states[i]) {
      forall k | 0 <= k < |steps| ensures !Disturbs(states[k], steps[k]) {
        assert Takes(c, states[k], steps[k], states[k + 1]);
        if Disturbs(states[k], steps[k]) {
          DisturbedBreaks(c, states[k], steps[k]);
        }
      }
    }
  }

  /** A run that disturbs no publisher stays solvent if and only if each of its steps is safe. */
  lemma SolventIffSafe(c: Config, states: seq<System>, steps: seq<Step>)
    requires c.v5 && IsRun(c, states, steps) && QuietUpTo(states, steps, |steps|)
    ensures (forall i :: 0 <= i < |states| ==> Solvent(states[i])) <==> SafeUpTo(states, steps, |steps|)
  {
    forall i | 0 <= i < |states| ensures Kept(c, states, steps, i) {
      assert QuietUpTo(states, steps, i);
      RunKeepsInv(c, states, steps, i);
    }
    if SafeUpTo(states, steps, |steps|) {
      forall i | 0 <= i < |states| ensures Solvent(states[i]) { assert Kept(c, states, steps, i) && SafeUpTo(states, steps, i); }
    }
    if forall i :: 0 <= i < |states| ==> Solvent(states[i]) {
      forall k | 0 <= k < |steps| ensures Safe(states[k], steps[k]) {
        assert Takes(c, states[k], steps[k], states[k + 1]);
        assert Kept(c, states, steps, k) && Solvent(states[k + 1]);
        StepKeepsInv(c, states[k], steps[k]);
      }
    }
  }

  /** The window is respected: as long as steps are safe, no more sent messages are stored
      than it has units, even when failing PUBRECs lose some. */
  lemma WindowRespected(c: Config, states: seq<System>, steps: seq<Step>, i: nat)
    requires c.v5 && IsRun(c, states, steps) && i < |states| && QuietUpTo(states, steps, i)
    ensures 0 <= states[i].w.sendQuota <= states[0].w.maxSend
    ensures SafeUpTo(states, steps, i) ==> states[i].w.Holding() <= states[0].w.maxSend
  {
    RunKeepsInv(c, states, steps, i);
  }

  /** Conservation: without failing PUBRECs, and as long as steps are safe, no unit is ever
      lost or created, no resume repairs anything, and each is exactly the sends it makes. */
  lemma Conservation(c: Config, states: seq<System>, steps: seq<Step>, i: nat)
    requires c.v5 && IsRun(c, states, steps) && i < |states| && QuietUpTo(states, steps, i)
    requires SafeUpTo(states, steps, i) && LosslessUpTo(states, steps, i)
    ensures states[i].w.sendQuota + states[i].w.Holding() + |KeysWhere(states[i].pubs, HoldsUnit)| == states[0].w.maxSend
    ensures ResumeSafe(states[i]) <==> HealsIdle(states[i].w)
    ensures Away(states[i]) == 0 ==> HealsIdle(states[i].w)
    ensures i < |steps| && steps[i].Resume? && ResumeSafe(states[i]) ==>
              steps[i].after == SendAll(states[i].w, Delivered(steps[i].picks, steps[i].stopped))
  {
    RunKeepsInv(c, states, steps, i);
    BalancedSafety(c, states[i]);
    if i < |steps| && steps[i].Resume? {
      assert Takes(c, states[i], steps[i], states[i + 1]);
      KeepsResume(c, states[i], steps[i].picks, steps[i].stopped, steps[i].after);
    }
  }

  /** No silent overwrite, as long as no publisher is disturbed: publishers own distinct ids,
      storing never collides, the inflight cap holds, no reservation outlives its publisher,
      and the gauge counts the live entries and those whose deletion it has yet to hear of. */
  lemma NoSilentOverwrite(c: Config, states: seq<System>, steps: seq<Step>, i: nat)
    requires c.v5 && IsRun(c, states, steps) && i < |states| && QuietUpTo(states, steps, i)
    ensures var s := states[i];
            && (forall p <- s.pubs, q <- s.pubs :: p != q && !s.pubs[q].Withdrawn? ==> !Owns(s.pubs[p], s.pubs[q].id))
            && (forall id <- s.w.internal :: IsReserved(s.w.internal[id]) ==> IsOwned(s, id))
            && (c.maxInflight > 0 ==> |s.w.internal| <= c.maxInflight)
            && s.gauge == s.w.Counted() + Away(s)
    ensures i < |steps| && (steps[i].Park? || steps[i].Place?) ==> states[i].w.Replaceable(steps[i].out.packetID)
  {
    RunKeepsInv(c, states, steps, i);
    if i < |steps| {
      assert Takes(c, states[i], steps[i], states[i + 1]);
      match steps[i]
      case Park(p, out) => KeepsPark(c, states[i], p, out);
      case Place(p, out) => KeepsPlace(c, states[i], p, out);
      case _ =>
    }
  }
}
