/**
  The SRV record (RFC 2782): priority, weight and port, each 16 bits big-endian,
  then the target name. The decoder ignores the declared length and every read
  error: an integer that cannot be read stays 0, a target that fails becomes "".
 */
module Srv {
  import opened Wire
  import opened Names
  import opened Records

  /** `DNSResourceRecordSRV.Decode(reader, length)`. */
  function SRVAt(data: Octets, pos: nat, length: U16): (m: Moved<Payload>)
    requires pos <= |data|
    ensures m.value.SRV? && pos <= m.next <= |data|
  {
    var priority := U16At(data, pos);
    var weight := U16At(data, priority.next);
    var port := U16At(data, weight.next);
    var target := NameOrEmpty(data, port.next);
    Moved(SRV(ValueOr(priority.result, 0), ValueOr(weight.result, 0), ValueOr(port.result, 0),
      target.value), target.next)
  }

  method DecodeSRV(r: ByteReader, length: U16) returns (p: Payload)
    requires r.Valid()
    modifies r
    ensures r.Valid() && Moved(p, r.pos) == SRVAt(r.data, old(r.pos), length)
  {
    var priority := r.ReadU16();
    var weight := r.ReadU16();
    var port := r.ReadU16();
    var target := DecodeNameOrEmpty(r);
    p := SRV(ValueOr(priority, 0), ValueOr(weight, 0), ValueOr(port, 0), target);
  }

  /** The RDATA `DNSResourceRecordSRV.Encode` writes: the three integers, then the
      terminated target. */
  function SRVWire(p: Payload): Octets
    requires p.SRV?
  {
    U16Wire(p.priority) + U16Wire(p.weight) + U16Wire(p.port) + NameWire(p.target, true)
  }

  /** `DNSResourceRecordSRV.Encode`. */
  method EncodeSRV(p: Payload) returns (b: Octets)
    requires p.SRV?
    ensures b == SRVWire(p)
  {
    var buf := new Buffer();
    buf.WriteU16(p.priority);
    assert buf.bytes == U16Wire(p.priority);
    buf.WriteU16(p.weight);
    buf.WriteU16(p.port);
    EncodeDomainName(buf, p.target, true);
    b := buf.bytes;
  }

  /** The encoding is 6 bytes plus the target's. */
  lemma SRVWireLength(p: Payload)
    requires p.SRV?
    ensures |SRVWire(p)| == 6 + |NameWire(p.target, true)|
  {
  }

  /** An SRV payload written at `pos` with a well-formed target is read back with
      all four fields, whatever length is declared, and the reader moves past it. */
  lemma SRVRoundTrip(data: Octets, pos: nat, p: Payload, length: U16)
    requires p.SRV? && WellFormed(p.target)
    requires At(data, pos, SRVWire(p))
    ensures SRVAt(data, pos, length) == Moved(p, pos + |SRVWire(p)|)
  {
    var ints := U16Wire(p.priority) + U16Wire(p.weight) + U16Wire(p.port);
    AtSplit(data, pos, ints, NameWire(p.target, true));
    AtSplit(data, pos, U16Wire(p.priority) + U16Wire(p.weight), U16Wire(p.port));
    AtSplit(data, pos, U16Wire(p.priority), U16Wire(p.weight));
    U16AtWire(data, pos, p.priority);
    U16AtWire(data, pos + 2, p.weight);
    U16AtWire(data, pos + 4, p.port);
    NameOrEmptyRoundTrip(data, pos + 6, p.target);
  }

  /** With fewer than two bytes left, decoding still succeeds: the integers are zero,
      the target is empty and the reader ends at the end of the input. */
  lemma SRVAtEnd(data: Octets, pos: nat, length: U16)
    requires pos <= |data| < pos + 2
    ensures SRVAt(data, pos, length) == Moved(SRV(0, 0, 0, []), |data|)
  {
    NameOrEmptyAtEnd(data);
  }
}
