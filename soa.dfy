/**
  The SOA record (section 3.3.13 of RFC 1035): two domain names, then five 32-bit
  big-endian integers. The decoder ignores the declared length and every read
  error: a name that fails becomes "", an integer that cannot be read stays 0.
 */
module Soa {
  import opened Wire
  import opened Names
  import opened Records

  /** `DNSResourceRecordSOA.Decode(reader, length)`. */
  function SOAAt(data: Octets, pos: nat, length: U16): (m: Moved<Payload>)
    requires pos <= |data|
    ensures m.value.SOA? && pos <= m.next <= |data|
  {
    var mName := NameOrEmpty(data, pos);
    var rName := NameOrEmpty(data, mName.next);
    var serial := U32At(data, rName.next);
    var refresh := U32At(data, serial.next);
    var retry := U32At(data, refresh.next);
    var expire := U32At(data, retry.next);
    var minimum := U32At(data, expire.next);
    Moved(SOA(mName.value, rName.value, ValueOr(serial.result, 0), ValueOr(refresh.result, 0),
      ValueOr(retry.result, 0), ValueOr(expire.result, 0), ValueOr(minimum.result, 0)), minimum.next)
  }

  method DecodeSOA(r: ByteReader, length: U16) returns (p: Payload)
    requires r.Valid()
    modifies r
    ensures r.Valid() && Moved(p, r.pos) == SOAAt(r.data, old(r.pos), length)
  {
    var mName := DecodeNameOrEmpty(r);
    var rName := DecodeNameOrEmpty(r);
    var serial := r.ReadU32();
    var refresh := r.ReadU32();
    var retry := r.ReadU32();
    var expire := r.ReadU32();
    var minimum := r.ReadU32();
    p := SOA(mName, rName, ValueOr(serial, 0), ValueOr(refresh, 0), ValueOr(retry, 0),
      ValueOr(expire, 0), ValueOr(minimum, 0));
  }

  /** The RDATA `DNSResourceRecordSOA.Encode` writes: both names terminated, then
      the five integers in decoding order. */
  function SOAWire(p: Payload): Octets
    requires p.SOA?
  {
    NameWire(p.mName, true) + NameWire(p.rName, true) + U32Wire(p.serial) + U32Wire(p.refresh)
      + U32Wire(p.retry) + U32Wire(p.expire) + U32Wire(p.minimum)
  }

  /** `DNSResourceRecordSOA.Encode`. */
  method EncodeSOA(p: Payload) returns (b: Octets)
    requires p.SOA?
    ensures b == SOAWire(p)
  {
    var buf := new Buffer();
    EncodeDomainName(buf, p.mName, true);
    assert buf.bytes == NameWire(p.mName, true);
    EncodeDomainName(buf, p.rName, true);
    buf.WriteU32(p.serial);
    buf.WriteU32(p.refresh);
    buf.WriteU32(p.retry);
    buf.WriteU32(p.expire);
    buf.WriteU32(p.minimum);
    b := buf.bytes;
  }

  /** The encoding is both names plus 20 bytes. */
  lemma SOAWireLength(p: Payload)
    requires p.SOA?
    ensures |SOAWire(p)| == |NameWire(p.mName, true)| + |NameWire(p.rName, true)| + 20
  {
  }

  /** An SOA payload written at `pos` with well-formed names is read back with all
      seven fields, whatever length is declared, and the reader moves past it. */
  lemma SOARoundTrip(data: Octets, pos: nat, p: Payload, length: U16)
    requires p.SOA? && WellFormed(p.mName) && WellFormed(p.rName)
    requires At(data, pos, SOAWire(p))
    ensures SOAAt(data, pos, length) == Moved(p, pos + |SOAWire(p)|)
  {
    var m, r := NameWire(p.mName, true), NameWire(p.rName, true);
    var names := m + r;
    var ints := [U32Wire(p.serial), U32Wire(p.refresh), U32Wire(p.retry), U32Wire(p.expire), U32Wire(p.minimum)];
    AtSplit(data, pos, names + ints[0] + ints[1] + ints[2] + ints[3], ints[4]);
    AtSplit(data, pos, names + ints[0] + ints[1] + ints[2], ints[3]);
    AtSplit(data, pos, names + ints[0] + ints[1], ints[2]);
    AtSplit(data, pos, names + ints[0], ints[1]);
    AtSplit(data, pos, names, ints[0]);
    AtSplit(data, pos, m, r);
    NameOrEmptyRoundTrip(data, pos, p.mName);
    NameOrEmptyRoundTrip(data, pos + |m|, p.rName);
    var q := pos + |names|;
    U32AtWire(data, q, p.serial);
    U32AtWire(data, q + 4, p.refresh);
    U32AtWire(data, q + 8, p.retry);
    U32AtWire(data, q + 12, p.expire);
    U32AtWire(data, q + 16, p.minimum);
  }

  /** With nothing left to read, decoding still succeeds: both names are empty and
      the five integers are zero. */
  lemma SOAAtEnd(data: Octets, length: U16)
    ensures SOAAt(data, |data|, length) == Moved(SOA([], [], 0, 0, 0, 0, 0), |data|)
  {
    NameOrEmptyAtEnd(data);
  }
}
