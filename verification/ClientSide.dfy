/** What the client holds: the messages it was handed and has not answered. Section 4.9 of
    MQTT 5.0 bounds their number by the client's Receive Maximum. */
module ClientSide {
  import opened Collections
  import opened InflightWindow
  import opened FlowControl

  ghost function OnWireIDs(s: System): set<nat> { set id | id in s.w.internal && OnWire(s, id) }

  /** The client holds every message that the broker still waits on. */
  ghost predicate Tracked(s: System) {
    forall id <- s.w.internal :: OnWire(s, id) ==> id in s.client
  }

  /** Messages the client holds although the broker has forgotten them. */
  ghost function Strays(s: System): multiset<nat> { s.client - multiset(OnWireIDs(s)) }

  /** The client answers only what it holds. */
  predicate Honest(s: System, step: Step) {
    match step
    case BeginPuback(_, id) => id in s.client
    case AckPubrec(id, _, _, _) => id in s.client
    case AckPubcomp(id) => id in s.client
    case _ => true
  }

  // ---------------------------------------------------------------- counting

  ghost function PlacedIDs(s: System): map<nat, nat> { map p | p in s.pubs && s.pubs[p].Placed? :: s.pubs[p].id }

  /** A sent entry is on the wire or in the hands of the publisher that stored it. */
  lemma HoldingSplits(s: System)
    requires Ownership(s)
    ensures s.w.Holding() == |OnWireIDs(s)| + |KeysWhere(s.pubs, IsPlaced)|
  {
    var placed := PlacedIDs(s);
    assert forall p <- placed, q <- placed :: placed[p] == placed[q] ==> p == q by {
      forall p <- placed, q <- placed | placed[p] == placed[q] ensures p == q {
        assert Owns(s.pubs[p], s.pubs[q].id);
      }
    }
    DistinctValues(placed);
    assert placed.Keys == KeysWhere(s.pubs, IsPlaced);
    SentEntries(s);
  }

  lemma SentEntries(s: System)
    requires Ownership(s)
    ensures KeysWhere(s.w.internal, HoldsQuota) == OnWireIDs(s) + PlacedIDs(s).Values
    ensures OnWireIDs(s) !! PlacedIDs(s).Values
  {
    var placed := PlacedIDs(s);
    forall id | id in placed.Values ensures IsSentEntry(s, id) && IsOwned(s, id) {
      var p :| p in placed && placed[p] == id;
      assert Owns(s.pubs[p], id) && Stands(s.pubs[p], s.w);
    }
    forall id | IsSentEntry(s, id) && !OnWire(s, id) ensures id in placed.Values {
      var p :| p in s.pubs && Owns(s.pubs[p], id);
      assert Stands(s.pubs[p], s.w);
      assert p in placed && placed[p] == id;
    }
  }

  /** The client's messages: those the broker waits on, and the strays. */
  lemma ClientSplits(s: System)
    requires Ownership(s) && Tracked(s)
    ensures |s.client| + |KeysWhere(s.pubs, IsPlaced)| == s.w.Holding() + |Strays(s)|
  {
    HoldingSplits(s);
    assert s.client == Strays(s) + multiset(OnWireIDs(s));
  }

  /** What the client holds of each id, and what of it is on the wire. */
  lemma StraysOf(s: System, id: nat)
    requires Tracked(s)
    ensures s.client[id] == Strays(s)[id] + One(OnWire(s, id))
  {
    assert id in OnWireIDs(s) <==> OnWire(s, id);
  }

  // ---------------------------------------------------------------- single steps

  /** The strays after a step: an expiry on the wire adds one, an answer that meets no entry
      of a sent message removes one, and nothing else changes them. A PUBREC answers only by
      failing, or by meeting a parked message, which then becomes what the client holds. */
  ghost function StraysNext(s: System, step: Step): multiset<nat> {
    match step
    case BeginExpire(_, id, _, _) => Strays(s) + multiset{id}
    case BeginPuback(_, id) => if OnWire(s, id) then Strays(s) else Strays(s) - multiset{id}
    case AckPubcomp(id) => if OnWire(s, id) then Strays(s) else Strays(s) - multiset{id}
    case AckPubrec(id, failed, _, _) =>
      if OnWire(s, id) || !(failed || IsParked(s, id)) then Strays(s) else Strays(s) - multiset{id}
    case _ => Strays(s)
  }

  ghost predicate SameWire(s: System, s': System, k: nat) {
    (OnWire(s', k) <==> OnWire(s, k)) && s'.client[k] == s.client[k]
  }

  /** Only `id` changes sides; the strays become `next`. */
  lemma StraysMove(s: System, s': System, id: nat, next: multiset<nat>)
    requires Tracked(s) && forall k :: k != id ==> SameWire(s, s', k)
    requires OnWire(s', id) ==> id in s'.client
    requires s'.client[id] == next[id] + One(OnWire(s', id)) && forall k :: k != id ==> next[k] == Strays(s)[k]
    ensures Tracked(s') && Strays(s') == next
  {
    forall k <- s'.w.internal | OnWire(s', k) ensures k in s'.client {
      if k != id { assert SameWire(s, s', k); }
    }
    forall k ensures Strays(s')[k] == next[k] {
      StraysOf(s, k);
      StraysOf(s', k);
      assert k != id ==> SameWire(s, s', k);
    }
    assert forall k :: k in Strays(s') <==> k in next;
  }

  /** A step on `p` and `id` alone leaves every other id on the wire or off it. */
  lemma WireElsewhere(s: System, s': System, p: nat, id: nat)
    requires TouchesOnly(s, s', p, id)
    requires p in s.pubs && !s.pubs[p].Withdrawn? ==> s.pubs[p].id == id
    requires p in s'.pubs && !s'.pubs[p].Withdrawn? ==> s'.pubs[p].id == id
    ensures forall k :: k != id ==> (OnWire(s', k) <==> OnWire(s, k))
  {
    forall k | k != id ensures IsOwned(s', k) <==> IsOwned(s, k) {
      if IsOwned(s, k) {
        var q :| q in s.pubs && Owns(s.pubs[q], k);
        assert q in s'.pubs && Owns(s'.pubs[q], k);
      }
      if IsOwned(s', k) {
        var q :| q in s'.pubs && Owns(s'.pubs[q], k);
        assert q in s.pubs && Owns(s.pubs[q], k);
      }
    }
  }

  /** A publisher's own id is off the wire before and after it is reserved, charged, parked,
      stored or withdrawn. */
  lemma OwnIDStaysOff(c: Config, s: System, step: Step, id: nat)
    requires Structure(c, s) && Enabled(c, s, step) && Tracked(s)
    requires step.Reserve? || step.PassGate? || step.Park? || step.Place? || step.Withdraw?
    requires id == if step.Reserve? then step.id else s.pubs[step.p].id
    requires c.v5
    ensures Tracked(Apply(c, s, step)) && Strays(Apply(c, s, step)) == Strays(s)
  {
    var s' := Apply(c, s, step);
    OwnStep(c, s, step, id);
    WireElsewhere(s, s', step.p, id);
    StraysOf(s, id);
    StraysMove(s, s', id, Strays(s));
  }

  lemma OwnStep(c: Config, s: System, step: Step, id: nat)
    requires c.v5 && Structure(c, s) && Enabled(c, s, step)
    requires step.Reserve? || step.PassGate? || step.Park? || step.Place? || step.Withdraw?
    requires id == if step.Reserve? then step.id else s.pubs[step.p].id
    ensures var s' := Apply(c, s, step);
            && TouchesOnly(s, s', step.p, id) && s'.client == s.client && !OnWire(s, id) && !OnWire(s', id)
            && (step.p in s'.pubs && !s'.pubs[step.p].Withdrawn? ==> s'.pubs[step.p].id == id)
  {
    var s' := Apply(c, s, step);
    if step.p in s'.pubs && Owns(s'.pubs[step.p], id) { assert IsOwned(s', id); }
    if step.p in s.pubs { assert Owns(s.pubs[step.p], id) && IsOwned(s, id); }
  }

  lemma EnqueueOnWire(c: Config, s: System, p: nat)
    requires Structure(c, s) && Enabled(c, s, Enqueue(p))
    ensures var id, s' := s.pubs[p].id, Apply(c, s, Enqueue(p));
            TouchesOnly(s, s', p, id) && !OnWire(s, id) && OnWire(s', id)
  {
    assert Owns(s.pubs[p], s.pubs[p].id) && IsOwned(s, s.pubs[p].id);
  }

  lemma EnqueueHandsOver(c: Config, s: System, p: nat)
    requires Structure(c, s) && Enabled(c, s, Enqueue(p)) && Tracked(s)
    ensures var s' := Apply(c, s, Enqueue(p)); Tracked(s') && Strays(s') == Strays(s)
  {
    var id, s' := s.pubs[p].id, Apply(c, s, Enqueue(p));
    EnqueueOnWire(c, s, p);
    WireElsewhere(s, s', p, id);
    StraysOf(s, id);
    StraysMove(s, s', id, Strays(s));
  }

  lemma RestoreAside(c: Config, s: System, p: nat)
    requires Structure(c, s) && Enabled(c, s, Restore(p)) && Tracked(s)
    ensures var s' := Apply(c, s, Restore(p)); Tracked(s') && Strays(s') == Strays(s)
  {
    var s' := Apply(c, s, Restore(p));
    assert TouchesOnly(s, s', p, 0);
    WireElsewhere(s, s', p, 0);
    StraysOf(s, 0);
    StraysMove(s, s', 0, Strays(s));
  }

  lemma ExpiryStrays(c: Config, s: System, step: Step)
    requires Structure(c, s) && Enabled(c, s, step) && Tracked(s) && step.BeginExpire? && !Disturbs(s, step)
    ensures var s' := Apply(c, s, step); Tracked(s') && Strays(s') == StraysNext(s, step)
  {
    var s' := Apply(c, s, step);
    Unowned(s, step.id);
    WireElsewhere(s, s', step.p, step.id);
    StraysOf(s, step.id);
    StraysMove(s, s', step.id, StraysNext(s, step));
  }

  lemma Unowned(s: System, id: nat)
    requires !IsOwned(s, id)
    ensures forall q <- s.pubs :: !Owns(s.pubs[q], id)
  {
  }

  /** An answer that completes: of the client's messages of that id one goes, and with it
      the entry, if it was on the wire. */
  lemma AnswerStrays(s: System, s': System, p: nat, id: nat)
    requires Tracked(s) && TouchesOnly(s, s', p, id) && id in s.client && s'.client == s.client - multiset{id}
    requires (p in s.pubs ==> s.pubs[p].Withdrawn?) && (p in s'.pubs ==> s'.pubs[p].Withdrawn?)
    requires id !in s'.w.internal
    ensures Tracked(s') && Strays(s') == if OnWire(s, id) then Strays(s) else Strays(s) - multiset{id}
  {
    WireElsewhere(s, s', p, id);
    StraysOf(s, id);
    StraysMove(s, s', id, if OnWire(s, id) then Strays(s) else Strays(s) - multiset{id});
  }

  lemma PubrecOnWire(c: Config, s: System, step: Step)
    requires Structure(c, s) && Enabled(c, s, step) && step.AckPubrec? && !step.failed && !Disturbs(s, step)
    ensures var s', id := Apply(c, s, step), step.id;
            && s'.client == s.client && (forall k :: k != id ==> SameWire(s, s', k))
            && (OnWire(s', id) <==> OnWire(s, id) || IsParked(s, id)) && !(OnWire(s, id) && IsParked(s, id))
  {
    var s' := Apply(c, s, step);
    assert forall k :: IsOwned(s', k) <==> IsOwned(s, k);
    ParkedIsUnowned(s, step.id);
  }

  lemma ParkedIsUnowned(s: System, id: nat)
    requires Ownership(s)
    ensures IsParked(s, id) ==> !IsOwned(s, id)
  {
  }

  /** A PUBREC that does not fail keeps the client's message; over a parked message it turns
      a stray into what the broker waits on. */
  lemma PubrecStrays(c: Config, s: System, step: Step)
    requires Structure(c, s) && Enabled(c, s, step) && Tracked(s) && step.AckPubrec? && !step.failed
    requires !Disturbs(s, step) && Honest(s, step)
    ensures var s' := Apply(c, s, step); Tracked(s') && Strays(s') == StraysNext(s, step)
  {
    PubrecOnWire(c, s, step);
    StraysOf(s, step.id);
    StraysMove(s, Apply(c, s, step), step.id, StraysNext(s, step));
  }

  // ---------------------------------------------------------------- resuming

  lemma SameEntriesSameStrays(s: System, s': System)
    requires Tracked(s) && s'.w.internal == s.w.internal && s'.pubs == s.pubs && s'.client == s.client
    ensures Tracked(s') && Strays(s') == Strays(s)
  {
    assert forall k :: IsOwned(s', k) <==> IsOwned(s, k);
    assert OnWireIDs(s') == OnWireIDs(s);
  }

  /** The system once a parked message has been handed over. */
  ghost function Released(s: System, id: nat): System
    requires id in s.w.internal
  {
    s.(w := s.w.Release(id).TakeSend(), client := s.client + multiset{id})
  }

  lemma ReleaseOnWire(c: Config, s: System, id: nat)
    requires Structure(c, s) && s.w.IsNextDeferred(id)
    ensures var s' := Released(s, id);
            !OnWire(s, id) && OnWire(s', id) && forall k :: k != id ==> SameWire(s, s', k)
  {
    var s' := Released(s, id);
    ParkedIsUnowned(s, id);
    assert forall k :: IsOwned(s', k) <==> IsOwned(s, k);
  }

  lemma ReleaseHandsOver(c: Config, s: System, id: nat)
    requires Structure(c, s) && Tracked(s) && s.w.sendQuota > 0 && s.w.IsNextDeferred(id)
    ensures var s' := Released(s, id); Structure(c, s') && Tracked(s') && Strays(s') == Strays(s)
  {
    var s' := Released(s, id);
    KeepsRelease(c, s, id);
    SameEntries(s.(w := s'.w), s');
    ReleaseOnWire(c, s, id);
    StraysOf(s, id);
    StraysMove(s, s', id, Strays(s));
  }

  ghost function Resumed(s: System, picks: seq<nat>, stopped: bool, after: Window): System {
    s.(w := after, client := s.client + multiset(Delivered(picks, stopped)))
  }

  lemma DeliveredTail(picks: seq<nat>, stopped: bool)
    requires picks != [] && !(|picks| == 1 && stopped)
    ensures multiset(Delivered(picks, stopped)) == multiset{picks[0]} + multiset(Delivered(picks[1..], stopped))
  {
    assert Delivered(picks, stopped) == [picks[0]] + Delivered(picks[1..], stopped);
  }

  lemma ReleasedThenResumed(s: System, picks: seq<nat>, stopped: bool, after: Window)
    requires picks != [] && picks[0] in s.w.internal && !(|picks| == 1 && stopped)
    ensures Resumed(Released(s, picks[0]), picks[1..], stopped, after) == Resumed(s, picks, stopped, after)
  {
    DeliveredTail(picks, stopped);
  }

  lemma {:induction false} DrainHandsOver(c: Config, s: System, picks: seq<nat>, stopped: bool, after: Window)
    requires Structure(c, s) && Tracked(s) && s.w.Drains(picks, stopped, after)
    ensures var s' := Resumed(s, picks, stopped, after); Tracked(s') && Strays(s') == Strays(s)
    decreases |picks|
  {
    if picks == [] {
      SameEntriesSameStrays(s, Resumed(s, picks, stopped, after));
    } else if |picks| == 1 && stopped {
      RefusedSendUndone(s.w, picks[0]);
      SameEntriesSameStrays(s, Resumed(s, picks, stopped, after));
    } else {
      ReleaseHandsOver(c, s, picks[0]);
      DrainHandsOver(c, Released(s, picks[0]), picks[1..], stopped, after);
      ReleasedThenResumed(s, picks, stopped, after);
    }
  }

  lemma RecoverKeeps(c: Config, s: System)
    requires Structure(c, s)
    ensures Structure(c, s.(w := s.w.Recover()))
  {
    SameEntries(s, s.(w := s.w.Recover()));
  }

  lemma ResumeHandsOver(c: Config, s: System, step: Step)
    requires Structure(c, s) && Tracked(s) && Enabled(c, s, step) && step.Resume?
    ensures var s' := Apply(c, s, step); Tracked(s') && Strays(s') == Strays(s)
  {
    var r := s.(w := s.w.Recover());
    RecoverKeeps(c, s);
    SameEntriesSameStrays(s, r);
    DrainHandsOver(c, r, step.picks, step.stopped, step.after);
  }

  // ---------------------------------------------------------------- whole runs

  /** A completing answer touches its id and, for a PUBACK, the handler that has to return
      the unit; `p` is that handler or nobody. */
  lemma CompletionTouches(c: Config, s: System, step: Step, p: nat)
    requires (step.BeginPuback? && step.p == p) || step.AckPubcomp? || (step.AckPubrec? && step.failed)
    requires Structure(c, s) && Enabled(c, s, step) && !IsOwned(s, step.id) && p !in s.pubs
    ensures var s' := Apply(c, s, step);
            && TouchesOnly(s, s', p, step.id) && s'.client == s.client - multiset{step.id}
            && (p in s'.pubs ==> s'.pubs[p].Withdrawn?) && step.id !in s'.w.internal
  {
    Unowned(s, step.id);
  }

  lemma CompletionStrays(c: Config, s: System, step: Step)
    requires step.BeginPuback? || step.AckPubcomp? || (step.AckPubrec? && step.failed)
    requires Structure(c, s) && Tracked(s) && Enabled(c, s, step) && !IsOwned(s, step.id) && step.id in s.client
    ensures var s' := Apply(c, s, step);
            Tracked(s') && Strays(s') == if OnWire(s, step.id) then Strays(s) else Strays(s) - multiset{step.id}
  {
    var b := UpperBound(s.pubs.Keys);
    var p := if step.BeginPuback? then step.p else b;
    CompletionTouches(c, s, step, p);
    AnswerStrays(s, Apply(c, s, step), p, step.id);
  }

  /** Every honest step keeps the client's messages accounted for. */
  lemma StepStrays(c: Config, s: System, step: Step)
    requires c.v5 && Structure(c, s) && Tracked(s) && Enabled(c, s, step) && !Disturbs(s, step) && Honest(s, step)
    ensures var s' := Apply(c, s, step); Tracked(s') && Strays(s') == StraysNext(s, step)
  {
    match step
    case Exhausted(_) =>
    case Enqueue(p) => EnqueueHandsOver(c, s, p);
    case Restore(p) => RestoreAside(c, s, p);
    case BeginExpire(_, _, _, _) => ExpiryStrays(c, s, step);
    case BeginPuback(_, _) => CompletionStrays(c, s, step);
    case AckPubcomp(_) => CompletionStrays(c, s, step);
    case AckPubrec(_, failed, _, _) => if failed { CompletionStrays(c, s, step); } else { PubrecStrays(c, s, step); }
    case Resume(_, _, _) => ResumeHandsOver(c, s, step);
    case Reserve(_, id, _) => OwnIDStaysOff(c, s, step, id);
    case _ => OwnIDStaysOff(c, s, step, s.pubs[step.p].id);
  }

  ghost predicate HonestUpTo(states: seq<System>, steps: seq<Step>, n: nat)
    requires |states| == |steps| + 1 && n <= |steps|
  {
    forall k :: 0 <= k < n ==> Honest(states[k], steps[k])
  }

  /** Strays are the sent messages that have expired unanswered: a run starts with none, and
      each step changes them as `StraysNext` says. */
  lemma {:induction false} RunStrays(c: Config, states: seq<System>, steps: seq<Step>, i: nat)
    requires c.v5 && IsRun(c, states, steps) && i < |states|
    requires QuietUpTo(states, steps, i) && HonestUpTo(states, steps, i)
    ensures Tracked(states[i])
    ensures Strays(states[i]) == if i == 0 then multiset{} else StraysNext(states[i - 1], steps[i - 1])
  {
    if i > 0 {
      RunStrays(c, states, steps, i - 1);
      RunKeepsInv(c, states, steps, i - 1);
      assert Takes(c, states[i - 1], steps[i - 1], states[i - 1 + 1]);
      StepStrays(c, states[i - 1], steps[i - 1]);
    }
  }

  lemma {:induction false} NoExpiryNoStrays(c: Config, states: seq<System>, steps: seq<Step>, i: nat)
    requires c.v5 && IsRun(c, states, steps) && i < |states|
    requires QuietUpTo(states, steps, i) && HonestUpTo(states, steps, i)
    requires forall k :: 0 <= k < i ==> !steps[k].BeginExpire?
    ensures Strays(states[i]) == multiset{}
  {
    RunStrays(c, states, steps, i);
    if i > 0 {
      NoExpiryNoStrays(c, states, steps, i - 1);
    }
  }

  /** Section 4.9 of MQTT 5.0, for a client that answers only what it holds, as long as no
      publisher is disturbed and steps are safe. What the client holds exceeds its Receive
      Maximum by no more than its strays; without lost units it exceeds it exactly when there
      are more strays than units not with the client; and without expiry it never does. */
  lemma ReceiveMaximumRespected(c: Config, states: seq<System>, steps: seq<Step>, i: nat)
    requires c.v5 && IsRun(c, states, steps) && i < |states|
    requires QuietUpTo(states, steps, i) && HonestUpTo(states, steps, i) && SafeUpTo(states, steps, i)
    ensures var s, max := states[i], states[0].w.maxSend;
            var free := s.w.sendQuota + |KeysWhere(s.pubs, IsPlaced)| + |KeysWhere(s.pubs, HoldsUnit)|;
            && free >= 0 && |s.client| + free <= max + |Strays(s)|
            && (LosslessUpTo(states, steps, i) ==>
                  |s.client| + free == max + |Strays(s)| && (|s.client| <= max <==> |Strays(s)| <= free))
            && ((forall k :: 0 <= k < i ==> !steps[k].BeginExpire?) ==> |s.client| <= max)
  {
    RunKeepsInv(c, states, steps, i);
    RunStrays(c, states, steps, i);
    ClientSplits(states[i]);
    if forall k :: 0 <= k < i ==> !steps[k].BeginExpire? {
      NoExpiryNoStrays(c, states, steps, i);
    }
  }
}
