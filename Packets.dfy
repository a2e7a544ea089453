/**
 * The parts of the Packet class that the transport core depends on: a packet
 * is its bytes, header included, and the header encodes the packet's total
 * length. The Packet class's own encoding (field widths, byte order) is not
 * part of this model, so the header decoder is a parameter.
 */
module Packets {

  /** One octet of the byte stream. */
  type byte = x: int | 0 <= x < 256

  /** A whole or partial packet, as the bytes it holds. */
  datatype Packet = Packet(data: seq<byte>) {

    /** Packet::Size: the number of bytes held. */
    function Size(): nat
    {
      |data|
    }
  }

  /**
   * The framing contract: `headerSize` is PACKET_HEADER_SIZE, and
   * `declaredSize` maps header bytes to the total packet length they declare.
   */
  datatype HeaderFormat = HeaderFormat(headerSize: nat, declaredSize: seq<byte> -> nat) {

    /** Headers are non-empty and never declare a packet shorter than a header. */
    ghost predicate WellFormed()
    {
      && headerSize >= 1
      && forall h :: declaredSize(h) >= headerSize
    }

    /**
     * Packet::FirstPacketSize applied to the unconsumed bytes. It reads the
     * first `headerSize` bytes; when fewer remain it reads those and whatever
     * lies beyond them, which this model renders as the decoder's value on
     * the short prefix.
     */
    function FirstPacketSize(data: seq<byte>): (r: nat)
      requires WellFormed()
      ensures r >= headerSize >= 1
      ensures |data| >= headerSize ==> r == declaredSize(data[..headerSize])
    {
      declaredSize(if |data| < headerSize then data else data[..headerSize])
    }
  }

  /** The bytes of a sequence of packets, one after the other. */
  function Flatten(ps: seq<Packet>): (r: seq<byte>)
  {
    if ps == [] then [] else ps[0].data + Flatten(ps[1..])
  }

  lemma {:induction false} FlattenAppend(a: seq<Packet>, b: seq<Packet>)
    ensures Flatten(a + b) == Flatten(a) + Flatten(b)
  {
    if a == [] {
      assert a + b == b;
    } else {
      assert (a + b)[1..] == a[1..] + b;
      FlattenAppend(a[1..], b);
    }
  }
}
