/** Self-stabilisation: whatever quota an earlier fault lost, a client that keeps
    acknowledging what it has been sent gets every parked message, in exactly as many
    completing acknowledgements as there were entries, and ends with its whole window. */
module Drain {
  import opened Collections
  import opened InflightWindow
  import opened FlowControl

  /** Entries are sent or parked; the send quota is anywhere in its range. */
  ghost predicate Settled(w: Window) {
    && w.Keyed() && w.Bounded() && w.maxSend > 0
    && forall id <- w.internal :: !IsReserved(w.internal[id])
  }

  ghost predicate HasSent(w: Window) { exists id :: id in w.internal && IsSent(w.internal[id]) }

  lemma {:induction false} DrainMakesProgress(w: Window, picks: seq<nat>, after: Window)
    requires Settled(w) && w.Drains(picks, false, after)
    ensures Settled(after) && after.internal.Keys == w.internal.Keys && after.maxSend == w.maxSend
    ensures HasSent(w) || (w.sendQuota > 0 && w.internal != map[]) ==> HasSent(after)
    ensures w.internal == map[] ==> after.sendQuota == w.maxSend
    decreases |picks|
  {
    if picks == [] {
      if !w.HasDeferred() && w.internal != map[] {
        var id :| id in w.internal;
        assert IsSent(w.internal[id]);
      }
    } else {
      var sent := w.Release(picks[0]).TakeSend();
      assert picks[0] in sent.internal && IsSent(sent.internal[picks[0]]);
      DrainMakesProgress(sent, picks[1..], after);
    }
  }

  /** A resume keeps every message, leaves at least one of them sent, and refills the
      window of a client with none. */
  lemma ResumeMakesProgress(w: Window, picks: seq<nat>, after: Window)
    requires Settled(w) && w.Resumes(picks, false, after)
    ensures Settled(after) && after.internal.Keys == w.internal.Keys && after.maxSend == w.maxSend
    ensures w.internal != map[] ==> HasSent(after)
    ensures w.internal == map[] ==> after.sendQuota == w.maxSend
  {
    if w.internal != map[] && !HasSent(w) {
      assert forall id <- w.internal :: IsDeferred(w.internal[id]);
      assert w.Recover().sendQuota > 0;
    } else if HasSent(w) {
      var id :| id in w.internal && IsSent(w.internal[id]);
      assert !w.Starved();
    }
    DrainMakesProgress(w.Recover(), picks, after);
  }

  /** Some parked message has the lowest stamp. */
  lemma {:induction false} NextDeferredExists(w: Window, id: nat) returns (next: nat)
    requires id in w.internal && IsDeferred(w.internal[id])
    ensures w.IsNextDeferred(next)
    decreases Stamp(w.internal[id])
  {
    if k :| k in w.internal && IsDeferred(w.internal[k]) && Stamp(w.internal[k]) < Stamp(w.internal[id]) {
      next := NextDeferredExists(w, k);
    } else {
      next := id;
    }
  }

  /** With a connection that accepts every packet, the resume loop always runs to its end. */
  lemma {:induction false} DrainExists(w: Window) returns (picks: seq<nat>, after: Window)
    ensures w.Drains(picks, false, after)
    decreases w.sendQuota
  {
    if w.sendQuota > 0 && w.HasDeferred() {
      var id :| id in w.internal && IsDeferred(w.internal[id]);
      var next := NextDeferredExists(w, id);
      var rest;
      rest, after := DrainExists(w.Release(next).TakeSend());
      picks := [next] + rest;
      assert picks[1..] == rest;
    } else {
      picks, after := [], w.Refill();
    }
  }

  datatype Ack = ByPuback(id: nat) | ByPubrec(id: nat, now: nat, interval: nat) | ByPubcomp(id: nat)

  predicate Completes(a: Ack) { !a.ByPubrec? }

  function AckWindow(w: Window, a: Ack): Window {
    match a
    case ByPuback(id) => PubackEffect(w, id).window
    case ByPubrec(id, now, interval) => PubrecEffect(w, id, false, now, interval).window
    case ByPubcomp(id) => PubcompEffect(w, id).window
  }

  /** The client acknowledges a message it has been sent; the handler resumes. */
  ghost predicate AckAndResume(w: Window, a: Ack, w': Window) {
    && a.id in w.internal && IsSent(w.internal[a.id])
    && exists picks :: AckWindow(w, a).Resumes(picks, false, w')
  }

  function Completions(acks: seq<Ack>): nat {
    if acks == [] then 0 else Completions(acks[..|acks| - 1]) + One(Completes(acks[|acks| - 1]))
  }

  /** `start` is resumed once; each of `acks` is then acknowledged and resumed in turn. */
  ghost predicate IsDrainRun(start: Window, acks: seq<Ack>, windows: seq<Window>) {
    && |windows| == |acks| + 1
    && (exists picks :: start.Resumes(picks, false, windows[0]))
    && forall i :: 0 <= i < |acks| ==> AckAndResume(windows[i], acks[i], windows[i + 1])
  }

  lemma AckShrinks(w: Window, a: Ack, w': Window)
    requires Settled(w) && AckAndResume(w, a, w')
    ensures Settled(w') && w'.maxSend == w.maxSend
    ensures |w'.internal| == |w.internal| - One(Completes(a))
    ensures w'.internal != map[] ==> HasSent(w')
    ensures w'.internal == map[] ==> w'.sendQuota == w'.maxSend
  {
    var mid := AckWindow(w, a);
    var picks :| mid.Resumes(picks, false, w');
    AckSettles(w, a);
    ResumeMakesProgress(mid, picks, w');
    assert |w'.internal| == |w'.internal.Keys| == |mid.internal.Keys| == |mid.internal|;
  }

  lemma AckSettles(w: Window, a: Ack)
    requires Settled(w) && a.id in w.internal && IsSent(w.internal[a.id])
    ensures Settled(AckWindow(w, a)) && AckWindow(w, a).maxSend == w.maxSend
    ensures |AckWindow(w, a).internal| == |w.internal| - One(Completes(a))
  {
    var mid := AckWindow(w, a);
    MapRemoveSize(w.internal, a.id);
    assert a.ByPubrec? ==> mid.internal.Keys == w.internal.Keys;
    assert |w.internal| == |w.internal.Keys| && |mid.internal| == |mid.internal.Keys|;
  }

  /** The drain never stalls, and empties the map in exactly `|start.internal|` completions. */
  lemma {:induction false} DrainsCompletely(start: Window, acks: seq<Ack>, windows: seq<Window>)
    requires Settled(start) && IsDrainRun(start, acks, windows)
    ensures var w := windows[|acks|];
            && Settled(w) && w.maxSend == start.maxSend
            && |w.internal| == |start.internal| - Completions(acks)
            && (w.internal != map[] ==> HasSent(w))
            && (w.internal == map[] ==> w.sendQuota == start.maxSend)
    decreases |acks|
  {
    if acks == [] {
      var picks :| start.Resumes(picks, false, windows[0]);
      ResumeMakesProgress(start, picks, windows[0]);
      assert |windows[0].internal.Keys| == |windows[0].internal| && |start.internal.Keys| == |start.internal|;
    } else {
      var n := |acks| - 1;
      DrainsCompletely(start, acks[..n], windows[..n + 1]);
      AckShrinks(windows[n], acks[n], windows[n + 1]);
    }
  }

  /** Each of `acks` is acknowledged and resumed in turn. */
  ghost predicate IsAckRun(acks: seq<Ack>, windows: seq<Window>) {
    && |windows| == |acks| + 1
    && forall i :: 0 <= i < |acks| ==> AckAndResume(windows[i], acks[i], windows[i + 1])
  }

  /** PUBACKs for sent messages, one after another, empty the map. */
  lemma {:induction false} AcksEmpty(w: Window) returns (acks: seq<Ack>, windows: seq<Window>)
    requires Settled(w) && (w.internal != map[] ==> HasSent(w))
    ensures IsAckRun(acks, windows) && windows[0] == w && windows[|acks|].internal == map[]
    decreases |w.internal|
  {
    if w.internal == map[] {
      acks, windows := [], [w];
    } else {
      var id :| id in w.internal && IsSent(w.internal[id]);
      var picks, w' := DrainExists(AckWindow(w, ByPuback(id)).Recover());
      assert AckAndResume(w, ByPuback(id), w') by { assert AckWindow(w, ByPuback(id)).Resumes(picks, false, w'); }
      AckShrinks(w, ByPuback(id), w');
      var a, ws := AcksEmpty(w');
      acks, windows := [ByPuback(id)] + a, [w] + ws;
      forall i | 0 <= i < |acks| ensures AckAndResume(windows[i], acks[i], windows[i + 1]) {
        if i > 0 { assert AckAndResume(ws[i - 1], a[i - 1], ws[i - 1 + 1]); }
      }
    }
  }

  /** From every settled window some run drains every message and restores the whole window. */
  lemma EmptyingRunExists(start: Window) returns (acks: seq<Ack>, windows: seq<Window>)
    requires Settled(start)
    ensures IsDrainRun(start, acks, windows)
    ensures windows[|acks|].internal == map[] && windows[|acks|].sendQuota == start.maxSend
    ensures Completions(acks) == |start.internal|
  {
    var picks, w := DrainExists(start.Recover());
    assert start.Resumes(picks, false, w);
    ResumeMakesProgress(start, picks, w);
    acks, windows := AcksEmpty(w);
    DrainsCompletely(start, acks, windows);
  }
}
