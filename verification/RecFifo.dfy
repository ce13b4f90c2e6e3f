/** The reception FIFO: packets of 32-byte chunks in a ring, the one at the end possibly wrapped around. */
module RecFifo {

  /** A 32-byte chunk; in a packet's first one, `size` is the header field that counts the chunks after it. */
  datatype Chunk = Chunk(size: nat, data: seq<nat>)

  /** A packet is as long as its header says. */
  predicate IsPacket(p: seq<Chunk>) {
    p != [] && |p| == p[0].size + 1
  }

  /** A ring from chunk `h`, all the way round. */
  function Around(b: seq<Chunk>, h: nat): seq<Chunk>
    requires h <= |b|
  {
    b[h..] + b[..h]
  }

  lemma {:induction false} Ahead(b: seq<Chunk>, h: nat, k: nat)
    requires h + k < |b|
    ensures b[h..h + k] == Around(b, h)[..k]
    ensures Around(b, h + k) == Around(b, h)[k..] + Around(b, h)[..k]
  {
    assert b[h..] == b[h..h + k] + b[h + k..] && b[..h + k] == b[..h] + b[h..h + k];
  }

  lemma {:induction false} AheadWrapped(b: seq<Chunk>, h: nat, k: nat)
    requires h < |b| <= h + k && k <= |b|
    ensures var s := h + k - |b|;
            b[h..] + b[..s] == Around(b, h)[..k] && Around(b, s) == Around(b, h)[k..] + Around(b, h)[..k]
  {
    var s := h + k - |b|;
    assert b[..h] == b[..s] + b[s..h] && b[s..] == b[s..h] + b[h..];
  }

  class Fifo {
    const buffer: array<Chunk>
    var head: nat

    constructor (chunks: nat)
      requires chunks > 0
      ensures Valid() && buffer.Length == chunks && head == 0 && fresh(buffer)
    {
      buffer := new Chunk[chunks](_ => Chunk(0, []));
      head := 0;
    }

    predicate Valid()
      reads this
    {
      head < buffer.Length
    }

    /** The ring from the head, all the way round. */
    ghost function View(): seq<Chunk>
      requires Valid()
      reads this, buffer
    {
      Around(buffer[..], head)
    }

    /** `getNextPacketWrap`: the packet at the head, put together from both ends of the ring when it wraps. */
    method NextPacketWrap() returns (packet: seq<Chunk>)
      requires Valid() && buffer[head].size < buffer.Length
      modifies this`head
      ensures Valid() && IsPacket(packet) && |packet| <= buffer.Length
      ensures packet == old(View())[..|packet|]
      ensures View() == old(View())[|packet|..] + old(View())[..|packet|]
    {
      var chunks := buffer[head].size + 1;
      ghost var b := buffer[..];
      if head + chunks < buffer.Length {
        Ahead(b, head, chunks);
        packet := buffer[head..head + chunks];
        head := head + chunks;
        return;
      }
      AheadWrapped(b, head, chunks);
      var atEnd := buffer.Length - head;
      var atStart := chunks - atEnd;
      packet := buffer[head..] + buffer[..atStart];
      head := atStart;
    }
  }

  function Concat(ps: seq<seq<Chunk>>): seq<Chunk> {
    if ps == [] then [] else ps[0] + Concat(ps[1..])
  }

  /** What `n` calls return one after the other, given what the ring shows from the head. */
  function Packets(view: seq<Chunk>, n: nat): seq<seq<Chunk>>
    decreases n
  {
    if n == 0 || view == [] || view[0].size >= |view| then []
    else
      var k := view[0].size + 1;
      [view[..k]] + Packets(view[k..] + view[..k], n - 1)
  }

  lemma {:induction false} Rotate(view: seq<Chunk>, p: seq<Chunk>, tail: seq<Chunk>, rest: seq<Chunk>)
    requires view == (p + tail) + rest
    ensures view[..|p|] == p && view[|p|..] + view[..|p|] == tail + (rest + p)
  {
    assert view == p + (tail + rest);
    assert view[|p|..] == tail + rest;
  }

  /** Packets that the hardware stored one after the other, wherever the ring's end falls among them, are returned
      one after the other. */
  lemma {:induction false} PacketsInOrder(ps: seq<seq<Chunk>>, rest: seq<Chunk>)
    requires forall i :: 0 <= i < |ps| ==> IsPacket(ps[i])
    ensures Packets(Concat(ps) + rest, |ps|) == ps
    decreases |ps|
  {
    if ps != [] {
      var p, tail := ps[0], Concat(ps[1..]);
      var view := Concat(ps) + rest;
      PacketsInOrder(ps[1..], rest + p);
      Rotate(view, p, tail, rest);
    }
  }
}
