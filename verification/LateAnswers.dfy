/** What expiry does to a client that is slow to answer. The broker forgets a message the client
    still holds: the client can then be handed more than its Receive Maximum, its PUBCOMP is
    credited with a unit that nothing held, and once the id is given out again its answer hits
    somebody else's message. */
module LateAnswers {
  import opened Collections
  import opened InflightWindow
  import opened FlowControl
  import opened ClientSide
  import opened HandoffRace

  // ---------------------------------------------------------------- one message too many

  /** From every balanced state with room, the expiry of a message that the client has not
      answered leads to a client that holds more than its Receive Maximum. */
  lemma ExpiryOverfills(c: Config, s: System, step: Step, q: nat) returns (t: System)
    requires c.v5 && Inv(c, s) && Tracked(s) && Total(s) == s.w.maxSend
    requires step.BeginExpire? && Enabled(c, s, step) && OnWire(s, step.id)
    requires q !in Apply(c, s, step).pubs
    requires var s1 := Apply(c, s, step); HasRoom(c, s1.w, s1.w.sendQuota + Away(s1))
    ensures Leads(c, Apply(c, s, step), t) && |t.client| > s.w.maxSend
  {
    var s1 := Apply(c, s, step);
    KeepsStep(c, s, step);
    ExpiryStrays(c, s, step);
    ClientSplits(s1);
    var u := Spend(c, s1, q);
    t := HandAllOver(c, u);
    LeadsJoin(c, s1, u, t);
  }

  // ---------------------------------------------------------------- a PUBCOMP that comes too late

  /** From every balanced state with a unit out, a PUBCOMP for an id that is not stored puts
      one unit too many in play and, given room, one message too many is then sent. */
  lemma LatePubcompOverdraws(c: Config, s: System, id: nat, q: nat) returns (t: System)
    requires c.v5 && Inv(c, s) && Total(s) == s.w.maxSend && s.w.sendQuota < s.w.maxSend && id !in s.w.internal && q !in s.pubs
    ensures var s1 := Apply(c, s, AckPubcomp(id));
            && Total(s1) == s.w.maxSend + 1 && Leads(c, s1, t)
            && (HasRoom(c, s1.w, s1.w.sendQuota + Away(s1)) ==> t.w.Holding() == s.w.maxSend + 1)
  {
    var s1 := Apply(c, s, AckPubcomp(id));
    KeepsLatePubcomp(c, s, id);
    if HasRoom(c, s1.w, s1.w.sendQuota + Away(s1)) {
      t := Spend(c, s1, q);
    } else {
      LeadsNowhere(c, s1);
      t := s1;
    }
  }

  /** With nobody else at work, one more message is handed to the client. */
  lemma Handed(c: Config, s: System, id: nat) returns (t: System)
    requires c.v5 && CanPublish(c, s, 0, id) && s.pubs == map[]
    ensures Leads(c, s, t) && t.pubs == map[] && t.cursor == id && t.client == s.client + multiset{id}
    ensures t.w == s.w.(internal := s.w.internal[id := Message(id)], sendQuota := s.w.sendQuota - 1)
  {
    var s1 := Claimant(s, 0, id, 0);
    ClaimLeads(c, s, 0, id, 0);
    t := DeliverLeads(c, s1, 0);
    LeadsJoin(c, s, s1, t);
    assert t.w.internal == s.w.internal[id := Message(id)] && t.pubs == map[];
  }

  /** Every client can have its first message expire unanswered. */
  lemma ExpiryReachable(c: Config, s: System) returns (t: System)
    requires c.v5 && Fresh(c, s) && c.maxPacketID >= 1
    ensures Leads(c, s, t) && Inv(c, t) && Tracked(t) && Total(t) == t.w.maxSend
    ensures Enabled(c, t, BeginExpire(0, 1, 2, 0)) && OnWire(t, 1) && t.client == multiset{1} && t.pubs == map[]
    ensures t.w == s.w.(internal := map[1 := Message(1)], sendQuota := s.w.sendQuota - 1) && t.cursor == 1
  {
    t := Handed(c, s, 1);
    FreshInv(c, s);
    LeadsKeeps(c, s, t);
  }

  /** Every client: while the unit of its expired message is on its way back, its PUBCOMP is
      not safe. */
  lemma LatePubcompReachable(c: Config, s: System) returns (t: System)
    requires c.v5 && Fresh(c, s) && c.maxPacketID >= 1
    ensures Leads(c, s, t) && Enabled(c, t, BeginExpire(0, 1, 2, 0)) && !Disturbs(t, BeginExpire(0, 1, 2, 0))
    ensures var s1 := Apply(c, t, BeginExpire(0, 1, 2, 0));
            Inv(c, s1) && Honest(s1, AckPubcomp(1)) && !Disturbs(s1, AckPubcomp(1)) && !Safe(s1, AckPubcomp(1))
  {
    t := ExpiryReachable(c, s);
    var s1 := Apply(c, t, BeginExpire(0, 1, 2, 0));
    KeepsStep(c, t, BeginExpire(0, 1, 2, 0));
    assert s1.w.internal == map[];
  }

  /** A sweep deletes the first message and returns its unit. */
  lemma FirstSwept(c: Config, t: System) returns (u: System)
    requires c.v5 && Inv(c, t) && Enabled(c, t, BeginExpire(0, 1, 2, 0)) && OnWire(t, 1) && t.pubs == map[]
    requires t.w.sendQuota < t.w.maxSend
    ensures Leads(c, Apply(c, t, BeginExpire(0, 1, 2, 0)), u) && Inv(c, u) && Total(u) == Total(t)
    ensures u == t.(w := t.w.Delete(1).(sendQuota := t.w.sendQuota + 1), gauge := t.gauge - 1)
  {
    SweepLeads(c, t, 0, 1, 2, 0);
    u := Swept(t, 1);
    KeepsStep(c, t, BeginExpire(0, 1, 2, 0));
    LeadsKeeps(c, Apply(c, t, BeginExpire(0, 1, 2, 0)), u);
  }

  lemma TwoHanded(c: Config, s: System) returns (t: System)
    requires c.v5 && Fresh(c, s) && s.w.maxSend >= 2 && c.maxPacketID >= 2 && c.maxInflight != 1
    ensures Leads(c, s, t) && Inv(c, t) && Total(t) == t.w.maxSend && t.pubs == map[] && 1 in t.client
    ensures Enabled(c, t, BeginExpire(0, 1, 2, 0)) && OnWire(t, 1) && t.w.sendQuota == t.w.maxSend - 2
  {
    var a := ExpiryReachable(c, s);
    t := Handed(c, a, 2);
    LeadsJoin(c, s, a, t);
    LeadsKeeps(c, a, t);
  }

  /** Every client with a window of two or more, without any race: its first message expires
      while a second is out, its PUBREC is answered and changes nothing, and its PUBCOMP is
      not safe. */
  lemma QuietLatePubcompReachable(c: Config, s: System, now: nat, interval: nat) returns (t: System, u: System)
    requires c.v5 && Fresh(c, s) && s.w.maxSend >= 2 && c.maxPacketID >= 2 && c.maxInflight != 1
    ensures Leads(c, s, t) && Enabled(c, t, BeginExpire(0, 1, 2, 0)) && !Disturbs(t, BeginExpire(0, 1, 2, 0))
    ensures Leads(c, Apply(c, t, BeginExpire(0, 1, 2, 0)), u) && Inv(c, u) && u.pubs == map[]
    ensures Honest(u, AckPubrec(1, false, now, interval)) && Apply(c, u, AckPubrec(1, false, now, interval)) == u
    ensures Honest(u, AckPubcomp(1)) && !Disturbs(u, AckPubcomp(1)) && !Safe(u, AckPubcomp(1))
  {
    t := TwoHanded(c, s);
    u := FirstSwept(c, t);
  }

  // ---------------------------------------------------------------- answers to reused ids

  ghost predicate SharesID(t: System, id: nat) {
    exists p, q :: p != q && p in t.pubs && q in t.pubs && Owns(t.pubs[p], id) && Owns(t.pubs[q], id)
  }

  /** A publisher is about to store its message, and a live one is in its way. */
  ghost predicate IsBlocked(t: System, id: nat) {
    !t.w.Replaceable(id) && exists p :: p in t.pubs && (t.pubs[p] == Charged(id) || t.pubs[p] == Parking(id))
  }

  /** The owner lost its entry: the next publisher can get the same id. */
  lemma LostEntryShared(c: Config, s1: System, p: nat, q: nat, id: nat) returns (t: System)
    requires p in s1.pubs && Owns(s1.pubs[p], id) && q !in s1.pubs && id !in s1.w.internal
    requires 1 <= id <= c.maxPacketID && !AtCap(s1.w.internal, c.maxInflight)
    ensures Leads(c, s1, t) && SharesID(t, id)
  {
    t := Apply(c, s1, Reserve(q, id, 0));
    LeadsOne(c, s1, Reserve(q, id, 0), t);
    assert Owns(t.pubs[p], id) && Owns(t.pubs[q], id);
  }

  /** The owner's reservation became a PUBREL: its message cannot be stored. */
  lemma ReplacedEntryBlocks(c: Config, s1: System, p: nat, id: nat) returns (t: System)
    requires c.v5 && p in s1.pubs && Owns(s1.pubs[p], id) && !s1.pubs[p].Placed? && IsSentEntry(s1, id)
    ensures Leads(c, s1, t) && IsBlocked(t, id)
  {
    if s1.pubs[p].Claimed? {
      t := Apply(c, s1, PassGate(p));
      LeadsOne(c, s1, PassGate(p), t);
    } else {
      LeadsNowhere(c, s1);
      t := s1;
    }
    assert t.pubs[p] == Charged(id) || t.pubs[p] == Parking(id);
  }

  /** From every state that satisfies the invariant, an expiry or an answer that disturbs a
      publisher leads to two owners of one id, or to a publisher that cannot store its own. */
  lemma DisturbanceBreaksLaws(c: Config, s: System, step: Step, q: nat) returns (t: System)
    requires c.v5 && Inv(c, s) && Enabled(c, s, step) && Disturbs(s, step) && q !in Apply(c, s, step).pubs
    ensures Leads(c, Apply(c, s, step), t) && (SharesID(t, step.id) || IsBlocked(t, step.id))
  {
    var s1, id := Apply(c, s, step), step.id;
    var p := DisturbedOwner(c, s, step);
    if id in s1.w.internal {
      t := ReplacedEntryBlocks(c, s1, p, id);
    } else {
      t := LostEntryShared(c, s1, p, q, id);
    }
  }

  /** The disturbed publisher keeps its stage; its entry is gone, or a PUBREL is in its place. */
  lemma DisturbedEntry(c: Config, s: System, step: Step, p: nat)
    requires Structure(c, s) && Enabled(c, s, step) && Disturbs(s, step) && p in s.pubs && Owns(s.pubs[p], step.id)
    ensures var s1, id := Apply(c, s, step), step.id;
            && p in s1.pubs && s1.pubs[p] == s.pubs[p] && id in s.w.internal
            && (if id in s1.w.internal then step.AckPubrec? && !s.pubs[p].Placed? && IsSentEntry(s1, id)
                else s1.w.internal == s.w.internal - {id})
  {
    assert Stands(s.pubs[p], s.w);
  }

  lemma DisturbedOwner(c: Config, s: System, step: Step) returns (p: nat)
    requires Structure(c, s) && Enabled(c, s, step) && Disturbs(s, step)
    ensures var s1, id := Apply(c, s, step), step.id;
            && p in s1.pubs && Owns(s1.pubs[p], id) && 1 <= id <= c.maxPacketID
            && (if id in s1.w.internal then !s1.pubs[p].Placed? && IsSentEntry(s1, id)
                else !AtCap(s1.w.internal, c.maxInflight))
  {
    p :| p in s.pubs && Owns(s.pubs[p], step.id);
    DisturbedEntry(c, s, step, p);
    MapRemoveSize(s.w.internal, step.id);
  }

  lemma FirstReused(c: Config, s: System) returns (t: System, u: System)
    requires c.v5 && Fresh(c, s) && c.maxPacketID >= 1
    ensures Leads(c, s, t) && Enabled(c, t, BeginExpire(0, 1, 2, 0)) && OnWire(t, 1)
    ensures Leads(c, Apply(c, t, BeginExpire(0, 1, 2, 0)), u) && Inv(c, u)
    ensures u.pubs == map[0 := Claimed(1)] && 1 in u.client
  {
    t := ExpiryReachable(c, s);
    var a := FirstSwept(c, t);
    assert a.w.internal == map[];
    u := FreeIsClaimed(c, a, 0, 1, 0);
    LeadsJoin(c, Apply(c, t, BeginExpire(0, 1, 2, 0)), a, u);
    LeadsKeeps(c, a, u);
  }

  /** Every client: once its unanswered message has expired, a publisher can be given the same
      id, and each answer the client may send then disturbs it. */
  lemma DisturbanceReachable(c: Config, s: System, p: nat) returns (t: System, u: System)
    requires c.v5 && Fresh(c, s) && c.maxPacketID >= 1 && p > 0
    ensures Leads(c, s, t) && Enabled(c, t, BeginExpire(0, 1, 2, 0)) && OnWire(t, 1)
    ensures Leads(c, Apply(c, t, BeginExpire(0, 1, 2, 0)), u) && Inv(c, u)
    ensures forall step <- [BeginPuback(p, 1), AckPubrec(1, false, 0, 0), AckPubrec(1, true, 0, 0), AckPubcomp(1)] ::
              Enabled(c, u, step) && Honest(u, step) && Disturbs(u, step)
  {
    t, u := FirstReused(c, s);
    assert Owns(u.pubs[0], 1) && IsOwned(u, 1) && Stands(u.pubs[0], u.w);
  }
}
