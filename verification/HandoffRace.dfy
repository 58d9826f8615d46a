/** What the conditions of the flow control theorems shut out. A message that expires between
    being stored and being queued, and a resume that repairs the window while units are on
    their way back, each lead to states that break the laws, from every state they occur in,
    by publishers' own steps alone. */
module HandoffRace {
  import opened Collections
  import opened InflightWindow
  import opened FlowControl

  /** The steps of a publish, and the return of a unit. */
  predicate IsPublishing(step: Step) {
    || step.Reserve? || step.PassGate? || step.Park? || step.Place? || step.Enqueue? || step.Withdraw? || step.Restore?
  }

  ghost predicate IsPublishingPath(c: Config, states: seq<System>, steps: seq<Step>) {
    IsPath(c, states, steps) && forall step <- steps :: IsPublishing(step)
  }

  /** Publishing alone leads from `s` to `t`. */
  ghost predicate Leads(c: Config, s: System, t: System) {
    exists states, steps :: IsPublishingPath(c, states, steps) && states[0] == s && states[|steps|] == t
  }

  lemma LeadsOne(c: Config, s: System, step: Step, t: System)
    requires Takes(c, s, step, t) && IsPublishing(step)
    ensures Leads(c, s, t)
  {
    assert IsPublishingPath(c, [s, t], [step]);
  }

  lemma LeadsNowhere(c: Config, s: System)
    ensures Leads(c, s, s)
  {
    assert IsPublishingPath(c, [s], []);
  }

  lemma LeadsJoin(c: Config, s: System, t: System, u: System)
    requires Leads(c, s, t) && Leads(c, t, u)
    ensures Leads(c, s, u)
  {
    var a, x :| IsPublishingPath(c, a, x) && a[0] == s && a[|x|] == t;
    var b, y :| IsPublishingPath(c, b, y) && b[0] == t && b[|y|] == u;
    var states, steps := a + b[1..], x + y;
    forall i | 0 <= i < |steps| ensures Takes(c, states[i], steps[i], states[i + 1]) {
      if i >= |x| { assert Takes(c, b[i - |x|], y[i - |x|], b[i - |x| + 1]); }
    }
    assert IsPublishingPath(c, states, steps);
  }

  lemma {:induction false} PublishingKeeps(c: Config, states: seq<System>, steps: seq<Step>, i: nat)
    requires c.v5 && IsPublishingPath(c, states, steps) && i < |states| && Structure(c, states[0])
    ensures Keeps(c, states[0], states[i])
  {
    if i > 0 {
      PublishingKeeps(c, states, steps, i - 1);
      assert Takes(c, states[i - 1], steps[i - 1], states[i - 1 + 1]) && IsPublishing(steps[i - 1]);
      KeepsStep(c, states[i - 1], steps[i - 1]);
    }
  }

  /** Publishing alone keeps the structure and the units in play. */
  lemma LeadsKeeps(c: Config, s: System, t: System)
    requires c.v5 && Leads(c, s, t) && Structure(c, s)
    ensures Keeps(c, s, t)
  {
    var states, steps :| IsPublishingPath(c, states, steps) && states[0] == s && states[|steps|] == t;
    PublishingKeeps(c, states, steps, |steps|);
  }

  lemma {:induction false} NextIDExists(m: map<nat, Packet>, cursor: nat, max: nat, free: nat) returns (id: nat)
    requires cursor <= max && 1 <= free <= max && free !in m
    ensures IsNextID(m, cursor, max, id) && Distance(cursor, max, id) <= Distance(cursor, max, free)
    decreases Distance(cursor, max, free)
  {
    if k :| 1 <= k <= max && k !in m && Distance(cursor, max, k) < Distance(cursor, max, free) {
      id := NextIDExists(m, cursor, max, k);
    } else {
      id := free;
    }
  }

  // ---------------------------------------------------------------- publishing

  /** A QoS 2 message that expires at time 1. */
  function Message(id: nat): Packet { Packet(id, Publish, 2, 5, 0, 1, "") }

  /** `q` can reserve `k` and finds send quota. */
  ghost predicate CanPublish(c: Config, s: System, q: nat, k: nat) {
    && c.v5 && q !in s.pubs && !AtCap(s.w.internal, c.maxInflight)
    && 1 <= k <= c.maxPacketID && k !in s.w.internal && 0 < s.w.sendQuota <= s.w.maxSend
  }

  function Claimant(s: System, q: nat, k: nat, now: int): System {
    s.(w := s.w.Put(Reservation(k, now)).TakeSend(), cursor := k, pubs := s.pubs[q := Charged(k)])
  }

  lemma ClaimLeads(c: Config, s: System, q: nat, k: nat, now: int)
    requires CanPublish(c, s, q, k)
    ensures Leads(c, s, Claimant(s, q, k, now))
  {
    var s1 := Apply(c, s, Reserve(q, k, now));
    LeadsOne(c, s, Reserve(q, k, now), s1);
    var s2 := Apply(c, s1, PassGate(q));
    LeadsOne(c, s1, PassGate(q), s2);
    LeadsJoin(c, s, s1, s2);
    assert s2.pubs == s.pubs[q := Charged(k)];
  }

  /** A charged publisher stores its message, unless the id is taken by a live one. */
  lemma PlaceLeads(c: Config, s: System, p: nat) returns (t: System)
    requires c.v5 && p in s.pubs && s.pubs[p].Charged? && s.w.Replaceable(s.pubs[p].id)
    ensures Leads(c, s, t)
    ensures var id := s.pubs[p].id;
            t == s.(w := s.w.Put(Message(id)), gauge := s.gauge + 1, pubs := s.pubs[p := Placed(id)])
  {
    t := Apply(c, s, Place(p, Message(s.pubs[p].id)));
    LeadsOne(c, s, Place(p, Message(s.pubs[p].id)), t);
  }

  lemma DeliverLeads(c: Config, s: System, p: nat) returns (t: System)
    requires c.v5 && p in s.pubs && s.pubs[p].Charged? && s.w.Replaceable(s.pubs[p].id)
    ensures Leads(c, s, t)
    ensures var id := s.pubs[p].id;
            t == System(s.w.Put(Message(id)), s.cursor, s.gauge + 1, s.pubs - {p}, s.client + multiset{id})
  {
    var s1 := PlaceLeads(c, s, p);
    t := Apply(c, s1, Enqueue(p));
    LeadsOne(c, s1, Enqueue(p), t);
    LeadsJoin(c, s, s1, t);
    assert t.pubs == s.pubs - {p};
  }

  lemma RestoreLeads(c: Config, s: System, p: nat) returns (t: System)
    requires p in s.pubs && s.pubs[p].Withdrawn?
    ensures Leads(c, s, t) && t == s.(w := s.w.GiveSend(), gauge := s.gauge - 1, pubs := s.pubs - {p})
  {
    t := Apply(c, s, Restore(p));
    LeadsOne(c, s, Restore(p), t);
  }

  lemma DropLeads(c: Config, s: System, p: nat) returns (t: System)
    requires p in s.pubs && s.pubs[p].Placed? && s.pubs[p].id in s.w.internal
    ensures Leads(c, s, t)
    ensures t == s.(w := s.w.Delete(s.pubs[p].id).GiveSend(), gauge := s.gauge - 1, pubs := s.pubs - {p})
  {
    var s1 := Apply(c, s, Withdraw(p));
    LeadsOne(c, s, Withdraw(p), s1);
    t := RestoreLeads(c, s1, p);
    LeadsJoin(c, s, s1, t);
    assert t.pubs == s.pubs - {p};
  }

  /** A publish that is dropped again leaves everything as it was, but for the cursor. */
  lemma PublishAndDrop(c: Config, s: System, q: nat, k: nat)
    requires CanPublish(c, s, q, k)
    ensures Leads(c, s, s.(cursor := k))
  {
    var s1 := Claimant(s, q, k, 0);
    ClaimLeads(c, s, q, k, 0);
    var s2 := PlaceLeads(c, s1, q);
    var s3 := DropLeads(c, s2, q);
    LeadsJoin(c, s, s1, s2);
    LeadsJoin(c, s, s2, s3);
    assert s3.w.internal == s.w.internal && s3.pubs == s.pubs;
  }

  /** The cursor can be brought round to any free id. */
  lemma {:induction false} CursorReaches(c: Config, s: System, q: nat, id: nat) returns (s': System)
    requires CanPublish(c, s, q, id) && s.cursor <= c.maxPacketID
    ensures Leads(c, s, s') && s' == s.(cursor := s'.cursor)
    ensures IsNextID(s'.w.internal, s'.cursor, c.maxPacketID, id)
    decreases Distance(s.cursor, c.maxPacketID, id)
  {
    var k := NextIDExists(s.w.internal, s.cursor, c.maxPacketID, id);
    if k == id {
      s' := s;
      LeadsNowhere(c, s);
    } else {
      PublishAndDrop(c, s, q, k);
      s' := CursorReaches(c, s.(cursor := k), q, id);
      LeadsJoin(c, s, s.(cursor := k), s');
    }
  }

  // ---------------------------------------------------------------- spending all the quota

  /** Ids and inflight entries suffice for `n` more messages. */
  ghost predicate HasRoom(c: Config, w: Window, n: int) {
    && |w.internal| + n <= c.maxPacketID
    && (c.maxInflight > 0 ==> |w.internal| + n <= c.maxInflight)
  }

  ghost predicate Workable(s: System) {
    Ownership(s) && NoOrphans(s) && s.w.Bounded() && s.w.maxSend > 0
  }

  /** Messages with the client or about to be, beyond those stored as sent. */
  function Surplus(s: System): int { |s.client| + |KeysWhere(s.pubs, IsPlaced)| - s.w.Holding() }

  /** The packet ids 1 to `n`. */
  function IDs(n: nat): (ids: set<nat>)
    ensures |ids| == n && forall k <- ids :: 1 <= k <= n
  {
    if n == 0 then {} else IDs(n - 1) + {n}
  }

  lemma SubsetSize(a: set<nat>, b: set<nat>)
    requires a <= b
    ensures |a| <= |b|
  {
    assert b == a + (b - a);
  }

  lemma FreeID(m: map<nat, Packet>, max: nat) returns (k: nat)
    requires |m| < max
    ensures 1 <= k <= max && k !in m
  {
    if IDs(max) <= m.Keys { SubsetSize(IDs(max), m.Keys); }
    k :| k in IDs(max) && k !in m;
  }

  lemma PublishSpends(c: Config, s: System, q: nat, k: nat) returns (t: System)
    requires Workable(s) && CanPublish(c, s, q, k)
    ensures Leads(c, s, t) && Workable(t) && Total(t) == Total(s) && t.pubs == s.pubs && Surplus(t) == Surplus(s)
    ensures t.w.sendQuota == s.w.sendQuota - 1 && t.w.maxSend == s.w.maxSend && |t.w.internal| == |s.w.internal| + 1
  {
    var s1 := Claimant(s, q, k, 0);
    ClaimLeads(c, s, q, k, 0);
    t := DeliverLeads(c, s1, q);
    LeadsJoin(c, s, s1, t);
    assert t.w.internal == s.w.internal[k := Message(k)] && t.pubs == s.pubs;
    OneMoreSent(s, t, q, k);
  }

  lemma OneMoreSent(s: System, t: System, q: nat, k: nat)
    requires Workable(s) && q !in s.pubs && k !in s.w.internal && s.w.sendQuota > 0
    requires t.w == s.w.(internal := s.w.internal[k := Message(k)], sendQuota := s.w.sendQuota - 1)
    requires t.pubs == s.pubs && t.client == s.client + multiset{k}
    ensures Workable(t) && Total(t) == Total(s) && Surplus(t) == Surplus(s) && |t.w.internal| == |s.w.internal| + 1
  {
    PutCounts(s.w, Message(k));
    MapUpdateSize(s.w.internal, k, Message(k));
    OthersKeepTheirs(s, t, q, k);
  }

  lemma DeliverySpends(c: Config, s: System, p: nat) returns (t: System)
    requires c.v5 && Workable(s) && p in s.pubs && s.pubs[p].Charged?
    ensures Leads(c, s, t) && Workable(t) && Total(t) == Total(s) && t.pubs == s.pubs - {p} && Surplus(t) == Surplus(s)
    ensures t.w.sendQuota == s.w.sendQuota && t.w.maxSend == s.w.maxSend && |t.w.internal| == |s.w.internal|
  {
    var id := s.pubs[p].id;
    t := DeliverLeads(c, s, p);
    PutCounts(s.w, Message(id));
    LeaveCounts(s, p);
    CountRemove(s.pubs, IsPlaced, p);
    MapUpdateSize(s.w.internal, id, Message(id));
    OthersKeepTheirs(s, t, p, id);
  }

  lemma RestoreSpends(c: Config, s: System, p: nat) returns (t: System)
    requires Workable(s) && p in s.pubs && s.pubs[p].Withdrawn? && s.w.sendQuota < s.w.maxSend
    ensures Leads(c, s, t) && Workable(t) && Total(t) == Total(s) && t.pubs == s.pubs - {p} && Surplus(t) == Surplus(s)
    ensures t.w == s.w.(sendQuota := s.w.sendQuota + 1)
  {
    t := RestoreLeads(c, s, p);
    LeaveCounts(s, p);
    CountRemove(s.pubs, IsPlaced, p);
    RestoreOwners(s, t, p);
  }

  /** Given room, every unit in play can end up with a message the client holds. */
  lemma {:induction false} Spend(c: Config, s: System, q: nat) returns (t: System)
    requires c.v5 && Workable(s) && q !in s.pubs && HasRoom(c, s.w, s.w.sendQuota + Away(s))
    ensures Leads(c, s, t) && t.w.Holding() == Total(s) && Surplus(t) == Surplus(s)
    decreases |KeysWhere(s.pubs, HoldsUnit)|, s.w.sendQuota
  {
    if s.w.sendQuota > 0 {
      var k := FreeID(s.w.internal, c.maxPacketID);
      var s1 := PublishSpends(c, s, q, k);
      t := Spend(c, s1, q);
      LeadsJoin(c, s, s1, t);
    } else if p :| p in s.pubs && s.pubs[p].Charged? {
      LeaveCounts(s, p);
      var s1 := DeliverySpends(c, s, p);
      t := Spend(c, s1, q);
      LeadsJoin(c, s, s1, t);
    } else if p :| p in s.pubs && s.pubs[p].Withdrawn? {
      LeaveCounts(s, p);
      var s1 := RestoreSpends(c, s, p);
      t := Spend(c, s1, q);
      LeadsJoin(c, s, s1, t);
    } else {
      assert KeysWhere(s.pubs, HoldsUnit) == {};
      LeadsNowhere(c, s);
      t := s;
    }
  }

  /** Every message that is stored can be handed over. */
  lemma {:induction false} HandAllOver(c: Config, s: System) returns (t: System)
    ensures Leads(c, s, t) && t.w == s.w && |KeysWhere(t.pubs, IsPlaced)| == 0 && Surplus(t) == Surplus(s)
    decreases |KeysWhere(s.pubs, IsPlaced)|
  {
    if p :| p in s.pubs && s.pubs[p].Placed? {
      CountRemove(s.pubs, IsPlaced, p);
      assert p in KeysWhere(s.pubs, IsPlaced);
      var s1 := Apply(c, s, Enqueue(p));
      LeadsOne(c, s, Enqueue(p), s1);
      t := HandAllOver(c, s1);
      LeadsJoin(c, s, s1, t);
    } else {
      assert KeysWhere(s.pubs, IsPlaced) == {};
      LeadsNowhere(c, s);
      t := s;
    }
  }

  // ---------------------------------------------------------------- unsafe steps

  /** From every solvent state, a step that is not safe puts more units in play than the
      window has and, given room, more messages are then sent than the window allows. */
  lemma UnsafeStepOverdraws(c: Config, s: System, step: Step, q: nat) returns (t: System)
    requires c.v5 && Inv(c, s) && Enabled(c, s, step) && !Disturbs(s, step) && !Safe(s, step)
    requires q !in Apply(c, s, step).pubs
    ensures var s1 := Apply(c, s, step); Total(s1) > s.w.maxSend && Leads(c, s1, t)
    ensures var s1 := Apply(c, s, step);
            HasRoom(c, s1.w, s1.w.sendQuota + Away(s1)) ==> t.w.Holding() > s.w.maxSend
  {
    var s1 := Apply(c, s, step);
    StepKeepsInv(c, s, step);
    if HasRoom(c, s1.w, s1.w.sendQuota + Away(s1)) {
      t := Spend(c, s1, q);
    } else {
      LeadsNowhere(c, s1);
      t := s1;
    }
  }

  /** Nothing is in the map, and everyone at work is returning a unit. */
  ghost predicate OnlyReturning(c: Config, s: System, n: int) {
    && n >= 0 && c.v5 && c.maxPacketID >= 1 && s.w.internal == map[] && s.w.Bounded() && s.w.maxSend > 0
    && s.w.sendQuota == s.w.maxSend - n && Away(s) == n
    && forall p <- s.pubs :: p < n
  }

  /** One more publisher stores its message and drops it, but has not yet returned the unit. */
  lemma OneMoreReturning(c: Config, s: System, n: nat) returns (t: System)
    requires OnlyReturning(c, s, n) && s.w.sendQuota > 0
    ensures Leads(c, s, t) && OnlyReturning(c, t, n + 1) && t.w.maxSend == s.w.maxSend
  {
    var s1 := Claimant(s, n, 1, 0);
    ClaimLeads(c, s, n, 1, 0);
    var s2 := PlaceLeads(c, s1, n);
    t := Apply(c, s2, Withdraw(n));
    LeadsOne(c, s2, Withdraw(n), t);
    LeadsJoin(c, s, s1, s2);
    LeadsJoin(c, s, s2, t);
    assert t.w.internal == map[];
    assert t.pubs == s.pubs[n := Withdrawn(1)];
    StageCounts(s, n, Withdrawn(1));
  }

  lemma {:induction false} AllReturning(c: Config, s: System, n: nat) returns (t: System)
    requires OnlyReturning(c, s, n)
    ensures Leads(c, s, t) && OnlyReturning(c, t, t.w.maxSend)
    decreases s.w.sendQuota
  {
    if s.w.sendQuota == 0 {
      LeadsNowhere(c, s);
      t := s;
    } else {
      var s1 := OneMoreReturning(c, s, n);
      t := AllReturning(c, s1, n + 1);
      LeadsJoin(c, s, s1, t);
    }
  }

  /** With every unit on its way back, one more publisher has to park. */
  lemma ParkLeads(c: Config, s: System) returns (t: System)
    requires OnlyReturning(c, s, s.w.maxSend)
    ensures Leads(c, s, t) && t.w == s.w.(internal := map[1 := Message(1).(expiry := DEFERRED)]) && t.pubs == s.pubs
  {
    var q, out := s.w.maxSend, Message(1).(expiry := DEFERRED);
    var s1 := Apply(c, s, Reserve(q, 1, 0));
    LeadsOne(c, s, Reserve(q, 1, 0), s1);
    var s2 := Apply(c, s1, PassGate(q));
    LeadsOne(c, s1, PassGate(q), s2);
    t := Apply(c, s2, Park(q, out));
    LeadsOne(c, s2, Park(q, out), t);
    LeadsJoin(c, s, s1, s2);
    LeadsJoin(c, s, s2, t);
    assert t.w.internal == map[1 := out];
    assert t.pubs == s.pubs;
  }

  /** Every client can get to an unsafe resume of either kind: while a single dropped message
      has yet to return its unit, the map is empty; and while all its units are on their way
      back, a publisher has parked. */
  lemma UnsafeResumesReachable(c: Config, s: System) returns (leaking: System, starved: System)
    requires c.v5 && Fresh(c, s) && c.maxPacketID >= 1
    ensures Leads(c, s, leaking) && leaking.w.Leaking() && !ResumeSafe(leaking)
    ensures Leads(c, s, starved) && starved.w.Starved() && !ResumeSafe(starved)
  {
    assert KeysWhere(s.pubs, IsWithdrawn) == {};
    leaking := OneMoreReturning(c, s, 0);
    var all := AllReturning(c, s, 0);
    starved := ParkLeads(c, all);
    LeadsJoin(c, s, all, starved);
    assert 1 in starved.w.internal;
  }

  // ---------------------------------------------------------------- expiry of a message in hand

  /** The system once a sweep has deleted `id` and returned its unit. */
  function Swept(s: System, id: nat): System {
    s.(w := s.w.Delete(id).GiveSend(), gauge := s.gauge - 1)
  }

  lemma SweepLeads(c: Config, s: System, e: nat, id: nat, now: int, maximumExpiry: int)
    requires Enabled(c, s, BeginExpire(e, id, now, maximumExpiry)) && s.w.internal[id].qos > 0
    ensures Leads(c, Apply(c, s, BeginExpire(e, id, now, maximumExpiry)), Swept(s, id))
  {
    var s1 := Apply(c, s, BeginExpire(e, id, now, maximumExpiry));
    var s2 := RestoreLeads(c, s1, e);
    assert s2.pubs == s.pubs;
  }

  /** A publisher between storing and queueing its message. */
  ghost predicate InHand(c: Config, s: System, p: nat) {
    c.v5 && Inv(c, s) && p in s.pubs && s.pubs[p].Placed?
  }

  /** Every client can have a message expire in its publisher's hands. */
  lemma InHandReachable(c: Config, s: System) returns (t: System)
    requires c.v5 && Fresh(c, s) && c.maxPacketID >= 1
    ensures Leads(c, s, t) && InHand(c, t, 0) && t.pubs[0].id == 1 && Enabled(c, t, BeginExpire(1, 1, 2, 0))
  {
    var s1 := Claimant(s, 0, 1, 0);
    ClaimLeads(c, s, 0, 1, 0);
    t := PlaceLeads(c, s1, 0);
    LeadsJoin(c, s, s1, t);
    FreshInv(c, s);
    LeadsKeeps(c, s, t);
  }

  lemma SweptIsFree(c: Config, s: System, p: nat, q: nat)
    requires InHand(c, s, p) && q !in s.pubs
    ensures var id := s.pubs[p].id;
            && CanPublish(c, Swept(s, id), q, id) && s.cursor <= c.maxPacketID
            && Swept(s, id).w == s.w.Delete(id).(sendQuota := s.w.sendQuota + 1)
  {
  }

  /** The state after the sweep, the second publisher's claim and the first one's drop: the
      second publisher is charged for an id it no longer holds. */
  function Doubled(s: System, p: nat, q: nat): System
    requires p in s.pubs
  {
    var id := s.pubs[p].id;
    System(s.w.Delete(id).(sendQuota := s.w.sendQuota + 1), id, s.gauge - 2, s.pubs[q := Charged(id)] - {p}, s.client)
  }

  lemma DoubledAccounts(c: Config, s: System, p: nat, q: nat)
    requires InHand(c, s, p) && q !in s.pubs
    ensures var t := Doubled(s, p, q); Total(t) == Total(s) + 1 && t.gauge == t.w.Counted() + Away(t) - 1
  {
    var id := s.pubs[p].id;
    DeleteCounts(s.w, id);
    StageCounts(s, q, Charged(id));
    LeaveCounts(s.(pubs := s.pubs[q := Charged(id)]), p);
  }

  /** Between its claim and its drop: the second publisher passes the gate, the first one
      deletes the claim and returns a unit once more. */
  lemma DropHitsSecondPublisher(c: Config, u: System, p: nat, q: nat) returns (t: System)
    requires c.v5 && p in u.pubs && u.pubs[p].Placed? && q in u.pubs && u.pubs[q] == Claimed(u.pubs[p].id)
    requires u.pubs[p].id in u.w.internal && 0 < u.w.sendQuota <= u.w.maxSend
    ensures Leads(c, u, t)
    ensures var id := u.pubs[p].id;
            t == u.(w := u.w.Delete(id), gauge := u.gauge - 1, pubs := u.pubs[q := Charged(id)] - {p})
  {
    var s2 := Apply(c, u, PassGate(q));
    LeadsOne(c, u, PassGate(q), s2);
    t := DropLeads(c, s2, p);
    LeadsJoin(c, u, s2, t);
  }

  /** A free id can be claimed once the cursor has come round to it. */
  lemma FreeIsClaimed(c: Config, s: System, q: nat, id: nat, now: int) returns (u: System)
    requires CanPublish(c, s, q, id) && s.cursor <= c.maxPacketID
    ensures Leads(c, s, u)
    ensures u == s.(w := s.w.Put(Reservation(id, now)), cursor := id, pubs := s.pubs[q := Claimed(id)])
  {
    var s1 := CursorReaches(c, s, q, id);
    u := Apply(c, s1, Reserve(q, id, now));
    LeadsOne(c, s1, Reserve(q, id, now), u);
    LeadsJoin(c, s, s1, u);
  }

  /** Two publishers own one id, and then one is charged for an id it does not hold. */
  lemma SecondPublisher(c: Config, s: System, p: nat, q: nat, now: int) returns (u: System)
    requires p in s.pubs && s.pubs[p].Placed? && CanPublish(c, Swept(s, s.pubs[p].id), q, s.pubs[p].id)
    requires s.w.sendQuota < s.w.maxSend && s.cursor <= c.maxPacketID
    ensures Leads(c, Swept(s, s.pubs[p].id), u) && u.pubs == s.pubs[q := Claimed(s.pubs[p].id)]
    ensures Leads(c, u, Doubled(s, p, q))
  {
    var id := s.pubs[p].id;
    u := FreeIsClaimed(c, Swept(s, id), q, id, now);
    var t := DropHitsSecondPublisher(c, u, p, q);
    assert t.pubs == Doubled(s, p, q).pubs;
    assert t.w.internal == Doubled(s, p, q).w.internal;
  }

  /** A third publisher claims the id, the second stores over the claim, and the third finds a
      live message in its way. */
  lemma ThirdPublisher(c: Config, t: System, q: nat, r: nat, id: nat) returns (u: System)
    requires q in t.pubs && t.pubs[q] == Charged(id) && CanPublish(c, t, r, id) && t.cursor <= c.maxPacketID
    ensures Leads(c, t, u) && r in u.pubs && u.pubs[r] == Charged(id) && !u.w.Replaceable(id)
  {
    var t1 := CursorReaches(c, t, r, id);
    var t2 := Claimant(t1, r, id, 0);
    ClaimLeads(c, t1, r, id, 0);
    u := PlaceLeads(c, t2, q);
    LeadsJoin(c, t, t1, t2);
    LeadsJoin(c, t, t2, u);
  }

  /** In cyclic order after the cursor, `id` comes after every other free id. */
  ghost predicate LastInTurn(m: map<nat, Packet>, cursor: nat, max: nat, id: nat) {
    forall k :: 1 <= k <= max && k !in m && k != id ==> Distance(cursor, max, k) < Distance(cursor, max, id)
  }

  lemma LastInTurnKept(m: map<nat, Packet>, cursor: nat, max: nat, id: nat, k: nat, out: Packet)
    requires LastInTurn(m, cursor, max, id) && IsNextID(m, cursor, max, k) && k != id
    requires cursor <= max && 1 <= id <= max && id !in m
    ensures LastInTurn(m[k := out], k, max, id)
  {
  }

  /** Other publishers fill the map to its cap and leave `id` free. */
  lemma {:induction false} OthersFill(c: Config, t: System, b: nat, id: nat) returns (u: System)
    requires (forall n <- t.pubs :: n < b) && 1 <= id <= c.maxPacketID && t.cursor <= c.maxPacketID
    requires id !in t.w.internal && |t.w.internal| <= c.maxInflight < c.maxPacketID
    requires LastInTurn(t.w.internal, t.cursor, c.maxPacketID, id)
    ensures Leads(c, t, u) && |u.w.internal| == c.maxInflight && id !in u.w.internal
    ensures forall n <- t.pubs :: n in u.pubs && u.pubs[n] == t.pubs[n]
    decreases c.maxInflight - |t.w.internal|
  {
    if |t.w.internal| == c.maxInflight {
      LeadsNowhere(c, t);
      u := t;
    } else {
      MapUpdateSize(t.w.internal, id, Message(id));
      var free := FreeID(t.w.internal[id := Message(id)], c.maxPacketID);
      var k := NextIDExists(t.w.internal, t.cursor, c.maxPacketID, free);
      LastInTurnKept(t.w.internal, t.cursor, c.maxPacketID, id, k, Reservation(k, 0));
      var t1 := Apply(c, t, Reserve(b, k, 0));
      LeadsOne(c, t, Reserve(b, k, 0), t1);
      MapUpdateSize(t.w.internal, k, Reservation(k, 0));
      u := OthersFill(c, t1, b + 1, id);
      LeadsJoin(c, t, t1, u);
    }
  }

  lemma CapExceeded(c: Config, t: System, q: nat, id: nat) returns (u: System)
    requires c.v5 && q in t.pubs && t.pubs[q] == Charged(id) && 1 <= id <= c.maxPacketID && t.cursor == id
    requires id !in t.w.internal && |t.w.internal| <= c.maxInflight < c.maxPacketID
    ensures Leads(c, t, u) && |u.w.internal| == c.maxInflight + 1
  {
    var b := UpperBound(t.pubs.Keys);
    var t1 := OthersFill(c, t, b, id);
    u := PlaceLeads(c, t1, q);
    LeadsJoin(c, t, t1, u);
    MapUpdateSize(t1.w.internal, id, Message(id));
  }

  /** The second publisher stores its message: all as before the expiry, but for one unit. */
  lemma StoredAgain(c: Config, s: System, p: nat, t: System)
    requires InHand(c, s, p) && t.pubs == s.pubs - {p}
    requires var id := s.pubs[p].id;
             t.w == s.w.(internal := s.w.internal[id := Message(id)], sendQuota := s.w.sendQuota + 1)
    requires s.w.sendQuota < s.w.maxSend
    ensures Workable(t) && Total(t) == Total(s) + 1 && Away(t) == Away(s) && |t.w.internal| == |s.w.internal|
  {
    var id := s.pubs[p].id;
    OthersKeepTheirs(s, t, p, id);
    PutCounts(s.w, Message(id));
    MapUpdateSize(s.w.internal, id, Message(id));
    LeaveCounts(s, p);
  }

  /** ... and every unit is spent. */
  lemma OneTooMany(c: Config, s: System, p: nat, q: nat) returns (u: System)
    requires InHand(c, s, p) && q !in s.pubs && HasRoom(c, s.w, s.w.sendQuota + 1 + Away(s))
    ensures Leads(c, Doubled(s, p, q), u) && u.w.Holding() == Total(s) + 1
  {
    var id, t := s.pubs[p].id, Doubled(s, p, q);
    var t1 := DeliverLeads(c, t, q);
    SweptIsFree(c, s, p, q);
    assert t1.pubs == s.pubs - {p};
    assert t1.w.internal == s.w.internal[id := Message(id)];
    StoredAgain(c, s, p, t1);
    u := Spend(c, t1, q);
    LeadsJoin(c, t, t1, u);
  }

  /** Once the entry a publisher still has in hand expires, continuations lead to states where
      two publishers own one id; one unit of quota too many is in play and the gauge is one
      short; a publisher finds a live message under its own id; the inflight cap, if it leaves
      ids to spare, is exceeded; and, from a balanced system with room, the client holds more
      messages than its Receive Maximum. */
  lemma ExpiryInHandBreaksLaws(c: Config, s: System, p: nat, e: nat, q: nat, r: nat, now: int, maximumExpiry: int)
    returns (shared: System, t: System, blocked: System, full: System, overdrawn: System)
    requires InHand(c, s, p) && q !in s.pubs && r !in s.pubs && q != r
    requires Enabled(c, s, BeginExpire(e, s.pubs[p].id, now, maximumExpiry))
    ensures var s1 := Apply(c, s, BeginExpire(e, s.pubs[p].id, now, maximumExpiry));
            && Leads(c, s1, shared) && Leads(c, s1, t) && Leads(c, s1, blocked) && Leads(c, s1, full)
            && Leads(c, s1, overdrawn)
    ensures var id := s.pubs[p].id;
            && p in shared.pubs && q in shared.pubs && Owns(shared.pubs[p], id) && Owns(shared.pubs[q], id)
            && Total(t) == Total(s) + 1 && t.gauge == t.w.Counted() + Away(t) - 1
            && Enabled(c, blocked, Place(r, Message(id))) && !blocked.w.Replaceable(id)
    ensures 0 < c.maxInflight < c.maxPacketID ==> |full.w.internal| > c.maxInflight
    ensures Total(s) == s.w.maxSend && HasRoom(c, s.w, s.w.sendQuota + 1 + Away(s)) ==>
              overdrawn.w.Holding() > s.w.maxSend
  {
    var id, s1 := s.pubs[p].id, Apply(c, s, BeginExpire(e, s.pubs[p].id, now, maximumExpiry));
    SweepLeads(c, s, e, id, now, maximumExpiry);
    SweptIsFree(c, s, p, q);
    shared := SecondPublisher(c, s, p, q, now);
    LeadsJoin(c, s1, Swept(s, id), shared);
    t := Doubled(s, p, q);
    LeadsJoin(c, s1, shared, t);
    DoubledAccounts(c, s, p, q);
    blocked := ThirdPublisher(c, t, q, r, id);
    LeadsJoin(c, s1, t, blocked);
    full, overdrawn := t, t;
    if 0 < c.maxInflight < c.maxPacketID {
      MapRemoveSize(s.w.internal, id);
      full := CapExceeded(c, t, q, id);
      LeadsJoin(c, s1, t, full);
    }
    if HasRoom(c, s.w, s.w.sendQuota + 1 + Away(s)) {
      overdrawn := OneTooMany(c, s, p, q);
      LeadsJoin(c, s1, t, overdrawn);
    }
  }
}
