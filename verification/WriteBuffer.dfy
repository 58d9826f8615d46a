/** Coalescing of small packets into one network write (the tail of `WritePacket`). */
module WriteBuffer {
  import opened Wire

  datatype Pending = Nothing | Buffered(bytes: Bytes)

  /** How a network write ends: all bytes are taken, or only the first few before an error. */
  datatype Fate = Succeeds | FailsAfter(n: nat)

  function Taken(data: Bytes, fate: Fate): nat {
    match fate case Succeeds => |data| case FailsAfter(n) => if n < |data| then n else |data|
  }

  class Connection {
    var wire: Bytes       // what the network has taken
    var outbuf: Pending
    const size: nat       // the configured buffer size

    constructor (size: nat)
      ensures this.size == size && wire == [] && outbuf == Nothing
    {
      this.size := size;
      wire, outbuf := [], Nothing;
    }

    function Waiting(): Bytes
      reads this
    {
      match outbuf case Nothing => [] case Buffered(b) => b
    }

    /** Everything handed to the network or waiting for it, in order. */
    function Sent(): Bytes
      reads this
    {
      wire + Waiting()
    }

    predicate Valid()
      reads this
    {
      outbuf.Buffered? ==> |outbuf.bytes| < size
    }

    method FlushOutbuf(fate: Fate) returns (ok: bool)
      modifies this
      ensures Sent() == old(Sent())
      ensures ok <==> outbuf == Nothing
      ensures fate.Succeeds? ==> ok
    {
      if outbuf == Nothing {
        return true;
      }
      var n := Taken(outbuf.bytes, fate);
      assert outbuf.bytes == outbuf.bytes[..n] + outbuf.bytes[n..];
      wire, outbuf := wire + outbuf.bytes[..n], Buffered(outbuf.bytes[n..]);
      ok := fate.Succeeds?;
      if ok {
        outbuf := Nothing;
      }
    }

    /** Hands over one packet; `more` says whether further packets are queued for the client.
        Bytes keep their order, and none is lost unless a direct write fails. */
    method Write(packet: Bytes, more: bool, fate: Fate) returns (ok: bool)
      requires Valid()
      modifies this
      ensures fate.Succeeds? ==> ok
      ensures ok ==> Valid() && Sent() == old(Sent()) + packet
      ensures ok && !more ==> outbuf == Nothing
      ensures !ok ==> exists n: nat | n <= |packet| :: Sent() == old(Sent()) + packet[..n]
      ensures !ok && old(outbuf).Buffered? ==> Sent() == old(Sent()) + packet
    {
      if !more || outbuf.Buffered? {
        if outbuf == Nothing {
          ok := Direct(packet, fate);
          return;
        }
      } else {
        if |packet| >= size {
          ok := Direct(packet, fate);
          return;
        }
        outbuf := Buffered([]);
      }
      outbuf := Buffered(outbuf.bytes + packet);
      assert Sent() == old(Sent()) + packet && packet[..|packet|] == packet;
      if more && |outbuf.bytes| < size {
        return true;
      }
      ok := FlushOutbuf(fate);
    }

    method Direct(packet: Bytes, fate: Fate) returns (ok: bool)
      requires outbuf == Nothing
      modifies this`wire
      ensures wire == old(wire) + packet[..Taken(packet, fate)]
      ensures ok ==> wire == old(wire) + packet
      ensures fate.Succeeds? ==> ok
    {
      wire := wire + packet[..Taken(packet, fate)];
      ok := fate.Succeeds?;
      assert packet[..|packet|] == packet;
    }
  }

  function Concat(packets: seq<Bytes>): Bytes {
    if packets == [] then [] else Concat(packets[..|packets| - 1]) + packets[|packets| - 1]
  }

  /** With writes that succeed, the client gets the packets one after another, whatever the
      queue looked like; nothing waits once the queue was seen empty. */
  method WriteAll(packets: seq<Bytes>, more: seq<bool>, size: nat) returns (wire: Bytes, waiting: Bytes)
    requires |packets| == |more|
    ensures wire + waiting == Concat(packets)
    ensures waiting == [] || |waiting| < size
    ensures more != [] && !more[|more| - 1] ==> waiting == []
  {
    var c := new Connection(size);
    for i := 0 to |packets|
      invariant c.Valid() && c.size == size && c.Sent() == Concat(packets[..i])
      invariant i > 0 && !more[i - 1] ==> c.outbuf == Nothing
    {
      assert packets[..i + 1][..i] == packets[..i];
      var ok := c.Write(packets[i], more[i], Succeeds);
    }
    assert packets[..|packets|] == packets;
    return c.wire, c.Waiting();
  }
}
