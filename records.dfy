/**
  Record payloads (RDATA, section 3.3 of RFC 1035 and its extensions). Each Go
  record type embeds the common prefix and adds its payload fields; here the
  payload is one variant of `Payload`, and the prefix lives in `Resources`.

  Every `Decode(reader, length)` of the Go code starts on a freshly made record,
  returns no error and leaves the reader wherever its reads stopped. A decoder is
  therefore modelled as a function of the input and the cursor that gives the
  payload and the new cursor (`Moved`), and a method over the shared reader that
  is proved to agree with it. This module holds the variants whose payload is an
  address, opaque bytes or a single domain name; EDNS, SOA and SRV have their own
  modules.
 */
module Records {
  import opened Wire
  import opened Names
  import opened Addresses

  /** `EDNSOption`: one option of an OPT pseudo-record (section 6.1.2 of RFC 6891). */
  datatype EdnsOption = EdnsOption(code: U16, data: Octets)

  /** The payload fields of each record type the codec knows. */
  datatype Payload =
    | A(address: IpText)
    | AAAA(address: IpText)
    | NS(nameServer: Octets)
    | TXT(content: Octets)
    | EDNS(udpSize: U16, extRCode: Byte, version: Byte, flags: U16, options: seq<EdnsOption>)
    | SOA(mName: Octets, rName: Octets, serial: U32, refresh: U32, retry: U32, expire: U32, minimum: U32)
    | SRV(priority: U16, weight: U16, port: U16, target: Octets)
    | CNAME(domain: Octets)

  /** A value read from the input, and the cursor after the read. */
  datatype Moved<+T> = Moved(value: T, next: nat)

  /** The value of a read whose error the Go code discards: the field keeps the zero
      value it had in the fresh record. */
  function ValueOr<T>(r: Result<T>, zero: T): (v: T)
    ensures r.Success? ==> v == r.value
    ensures r.Failure? ==> v == zero
  {
    if r.Success? then r.value else zero
  }

  // ---------------------------------------------------------------------------
  // A and AAAA: `length` bytes read with reader.Read, shown as text
  // ---------------------------------------------------------------------------

  /** `DNSResourceRecordA.Decode(reader, length)`: a `length`-byte slice filled with
      what the reader has left (the rest stays zero), shown as text. */
  function AAt(data: Octets, pos: nat, length: U16): (m: Moved<Payload>)
    requires pos <= |data|
    ensures m.value.A? && pos <= m.next <= |data|
  {
    var c := ReadAt(data, pos, length as nat);
    Moved(A(IpString(c.bytes)), c.next)
  }

  /** `DNSResourceRecordAAAA.Decode(reader, length)`: as for A. */
  function AAAAAt(data: Octets, pos: nat, length: U16): (m: Moved<Payload>)
    requires pos <= |data|
    ensures m.value.AAAA? && pos <= m.next <= |data|
  {
    var c := ReadAt(data, pos, length as nat);
    Moved(AAAA(IpString(c.bytes)), c.next)
  }

  method DecodeA(r: ByteReader, length: U16) returns (p: Payload)
    requires r.Valid()
    modifies r
    ensures r.Valid() && Moved(p, r.pos) == AAt(r.data, old(r.pos), length)
  {
    var data, _ := r.Read(length as nat);
    p := A(IpString(data));
  }

  method DecodeAAAA(r: ByteReader, length: U16) returns (p: Payload)
    requires r.Valid()
    modifies r
    ensures r.Valid() && Moved(p, r.pos) == AAAAAt(r.data, old(r.pos), length)
  {
    var data, _ := r.Read(length as nat);
    p := AAAA(IpString(data));
  }

  /** `DNSResourceRecordA.Encode`: `net.ParseIP(Address).To4()`. */
  function AWire(address: IpText): Octets
  {
    To4(ParseIp(address))
  }

  /** `DNSResourceRecordAAAA.Encode`: `net.ParseIP(Address).To16()`. */
  function AAAAWire(address: IpText): Octets
  {
    To16(ParseIp(address))
  }

  /** Decoding a 4-byte payload and encoding the address again gives the same
      4 bytes; the reader moves past them. */
  lemma ARoundTrip(data: Octets, pos: nat, b: Octets)
    requires |b| == 4 && At(data, pos, b)
    ensures var m := AAt(data, pos, 4);
      m.next == pos + 4 && AWire(m.value.address) == b
  {
    AtSlice(data, pos, b);
    assert ReadAt(data, pos, 4).bytes == data[pos..pos + 4] == b;
    V4RoundTrip(b);
  }

  /** Decoding a 16-byte payload and encoding the address again gives the same
      16 bytes. */
  lemma AAAARoundTrip(data: Octets, pos: nat, b: Octets)
    requires |b| == 16 && At(data, pos, b)
    ensures var m := AAAAAt(data, pos, 16);
      m.next == pos + 16 && AAAAWire(m.value.address) == b
  {
    AtSlice(data, pos, b);
    assert ReadAt(data, pos, 16).bytes == data[pos..pos + 16] == b;
    V6RoundTrip(b);
  }

  /** Dotted-quad text survives `Encode` then `Decode` of an A record, given
      RDLENGTH as written. */
  lemma ATextRoundTrip(data: Octets, pos: nat, t: IpText)
    requires t.Dotted? && |t.quad| == 4 && At(data, pos, AWire(t))
    ensures AAt(data, pos, Len16(|AWire(t)|)) == Moved(A(t), pos + |AWire(t)|)
  {
    assert ParseIp(t) == Some(V4InV6Prefix + t.quad);
    assert (V4InV6Prefix + t.quad)[12..] == t.quad && (V4InV6Prefix + t.quad)[..12] == V4InV6Prefix;
    assert AWire(t) == t.quad;
    AtSlice(data, pos, t.quad);
    assert ReadAt(data, pos, 4).bytes == data[pos..pos + 4] == t.quad;
  }

  /** Dotted-quad text, and colon text of an address that is not IPv4-mapped,
      survive `Encode` then `Decode` of an AAAA record, given RDLENGTH as written. */
  lemma AAAATextRoundTrip(data: Octets, pos: nat, t: IpText)
    requires (t.Dotted? && |t.quad| == 4) || (t.Colon? && |t.address| == 16 && !IsV4Mapped(t.address))
    requires At(data, pos, AAAAWire(t))
    ensures AAAAAt(data, pos, Len16(|AAAAWire(t)|)) == Moved(AAAA(t), pos + |AAAAWire(t)|)
  {
    var b := AAAAWire(t);
    assert |b| == 16;
    AtSlice(data, pos, b);
    assert ReadAt(data, pos, 16).bytes == data[pos..pos + 16] == b;
    if t.Dotted? {
      assert b == V4InV6Prefix + t.quad;
      assert b[..12] == V4InV6Prefix && b[12..] == t.quad;
    }
  }

  /** An A payload is 4 bytes when the text names an IPv4 address (directly or
      IPv4-mapped) and empty otherwise; an AAAA payload is 16 bytes when the text
      names any address and empty otherwise. */
  lemma AddressWireLength(t: IpText)
    ensures |AWire(t)| == (if (t.Dotted? && |t.quad| == 4) || (t.Colon? && IsV4Mapped(t.address)) then 4 else 0)
    ensures |AAAAWire(t)| == (if (t.Dotted? && |t.quad| == 4) || (t.Colon? && |t.address| == 16) then 16 else 0)
  {
    To4OfText(t);
    To16OfText(t);
  }

  // ---------------------------------------------------------------------------
  // TXT: opaque bytes
  // ---------------------------------------------------------------------------

  /** `DNSResourceRecordTXT.Decode(reader, length)`: exactly `length` bytes of
      content, zero-padded when the input runs short. */
  function TXTAt(data: Octets, pos: nat, length: U16): (m: Moved<Payload>)
    requires pos <= |data|
    ensures m.value.TXT? && |m.value.content| == length as int
    ensures m.next == pos + (if length as int <= |data| - pos then length as int else |data| - pos)
  {
    var c := ReadAt(data, pos, length as nat);
    Moved(TXT(c.bytes), c.next)
  }

  method DecodeTXT(r: ByteReader, length: U16) returns (p: Payload)
    requires r.Valid()
    modifies r
    ensures r.Valid() && Moved(p, r.pos) == TXTAt(r.data, old(r.pos), length)
  {
    var data, _ := r.Read(length as nat);
    p := TXT(data);
  }

  /** `DNSResourceRecordTXT.Encode`: the content, verbatim. Any character-string
      length prefixes (section 3.3.14 of RFC 1035) are part of the content. */
  function TXTWire(content: Octets): (b: Octets)
    ensures |b| == |content|
  {
    content
  }

  /** Content that fits a 16-bit length comes back unchanged from its own wire form,
      and the reader moves past it. */
  lemma TXTRoundTrip(data: Octets, pos: nat, content: Octets)
    requires |content| < 0x1_0000 && At(data, pos, TXTWire(content))
    ensures TXTAt(data, pos, Len16(|TXTWire(content)|)) == Moved(TXT(content), pos + |content|)
  {
    AtSlice(data, pos, content);
    assert ReadAt(data, pos, |content|).bytes == data[pos..pos + |content|];
  }

  // ---------------------------------------------------------------------------
  // NS and CNAME: one domain name
  // ---------------------------------------------------------------------------

  /** The name at `pos`, or the empty name when decoding fails (the error is
      discarded and `decodeDomainName` returns ""). */
  function NameOrEmpty(data: Octets, pos: nat): (m: Moved<Octets>)
    requires pos <= |data|
    ensures pos <= m.next <= |data|
    ensures NameAt(data, pos).result.Failure? ==> m.value == []
  {
    var n := NameAt(data, pos);
    Moved(ValueOr(n.result, []), n.next)
  }

  /** At the end of the input the name is empty, and nothing is consumed. */
  lemma NameOrEmptyAtEnd(data: Octets)
    ensures NameOrEmpty(data, |data|) == Moved([], |data|)
  {
  }

  /** `DNSResourceRecordNS.Decode(reader, length)`: one name; `length` is ignored. */
  function NSAt(data: Octets, pos: nat, length: U16): (m: Moved<Payload>)
    requires pos <= |data|
    ensures m.value.NS? && pos <= m.next <= |data|
  {
    var n := NameOrEmpty(data, pos);
    Moved(NS(n.value), n.next)
  }

  /** `DNSResourceRecordCNAME.Decode(reader, length)`: one name; `length` is ignored. */
  function CNAMEAt(data: Octets, pos: nat, length: U16): (m: Moved<Payload>)
    requires pos <= |data|
    ensures m.value.CNAME? && pos <= m.next <= |data|
  {
    var n := NameOrEmpty(data, pos);
    Moved(CNAME(n.value), n.next)
  }

  /** `decodeDomainName` with its error discarded, as the name-valued decoders call it. */
  method DecodeNameOrEmpty(r: ByteReader) returns (name: Octets)
    requires r.Valid()
    modifies r
    ensures r.Valid() && Moved(name, r.pos) == NameOrEmpty(r.data, old(r.pos))
  {
    var n := DecodeDomainName(r);
    name := if n.Success? then n.value else [];
  }

  method DecodeNS(r: ByteReader, length: U16) returns (p: Payload)
    requires r.Valid()
    modifies r
    ensures r.Valid() && Moved(p, r.pos) == NSAt(r.data, old(r.pos), length)
  {
    var name := DecodeNameOrEmpty(r);
    p := NS(name);
  }

  method DecodeCNAME(r: ByteReader, length: U16) returns (p: Payload)
    requires r.Valid()
    modifies r
    ensures r.Valid() && Moved(p, r.pos) == CNAMEAt(r.data, old(r.pos), length)
  {
    var name := DecodeNameOrEmpty(r);
    p := CNAME(name);
  }

  /** `DNSResourceRecordNS.Encode` and `DNSResourceRecordCNAME.Encode`: the
      terminated label chain of the name in a fresh buffer. */
  method EncodeName(name: Octets) returns (b: Octets)
    ensures b == NameWire(name, true)
  {
    var buf := new Buffer();
    EncodeDomainName(buf, name, true);
    b := buf.bytes;
  }

  /** A name payload written at `pos` is read back whole; the declared length plays
      no part. */
  lemma NameOrEmptyRoundTrip(data: Octets, pos: nat, name: Octets)
    requires WellFormed(name) && At(data, pos, NameWire(name, true))
    ensures NameOrEmpty(data, pos) == Moved(name, pos + |NameWire(name, true)|)
  {
    NameRoundTrip(data, pos, name);
  }

  lemma NSRoundTrip(data: Octets, pos: nat, name: Octets, length: U16)
    requires WellFormed(name) && At(data, pos, NameWire(name, true))
    ensures NSAt(data, pos, length) == Moved(NS(name), pos + |NameWire(name, true)|)
  {
    NameOrEmptyRoundTrip(data, pos, name);
  }

  lemma CNAMERoundTrip(data: Octets, pos: nat, name: Octets, length: U16)
    requires WellFormed(name) && At(data, pos, NameWire(name, true))
    ensures CNAMEAt(data, pos, length) == Moved(CNAME(name), pos + |NameWire(name, true)|)
  {
    NameOrEmptyRoundTrip(data, pos, name);
  }

  /** A name that fails to decode leaves an empty name server and no error. */
  lemma NSSwallowsError(data: Octets, pos: nat, length: U16)
    requires pos <= |data| && NameAt(data, pos).result.Failure?
    ensures NSAt(data, pos, length).value == NS([])
  {
  }

  /** A name that fails to decode leaves an empty canonical name and no error. */
  lemma CNAMESwallowsError(data: Octets, pos: nat, length: U16)
    requires pos <= |data| && NameAt(data, pos).result.Failure?
    ensures CNAMEAt(data, pos, length).value == CNAME([])
  {
  }
}
