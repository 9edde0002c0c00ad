/**
  The fixed 12-byte message header (section 4.1.1 of RFC 1035). Both revisions of
  the codec lay it out identically.

      byte 0-1   ID
      byte 2     QR(1) OPCODE(4) AA(1) TC(1) RD(1)
      byte 3     RA(1) Z(3) RCODE(4)
      byte 4-11  QDCOUNT ANCOUNT NSCOUNT ARCOUNT, each big-endian
 */
module Headers {
  import opened Wire

  const DNSQuery: bv8 := 0
  const DNSResponse: bv8 := 1

  /** `DNSHeader`: the flag fields are Go `uint8`s, one per field, which the codec
      packs with shifts and masks; they are kept as 8-bit vectors. */
  datatype Header = Header(
    id: U16,
    qr: bv8, opCode: bv8, aa: bv8, tc: bv8, rd: bv8,
    ra: bv8, z: bv8, rCode: bv8,
    qdCount: U16, anCount: U16, nsCount: U16, arCount: U16)

  /** Every flag field fits the bits it is given on the wire. */
  predicate FlagsFit(h: Header)
  {
    h.qr <= 1 && h.opCode <= 15 && h.aa <= 1 && h.tc <= 1 && h.rd <= 1
    && h.ra <= 1 && h.z <= 7 && h.rCode <= 15
  }

  /** `NewHeader`: a query with no entries. The Go code draws the ID at random; here
      it is a parameter. */
  function NewHeader(id: U16): (h: Header)
    ensures h.id == id && h.qr == DNSQuery
    ensures h.opCode == 0 && h.aa == 0 && h.tc == 0 && h.rd == 0
    ensures h.ra == 0 && h.z == 0 && h.rCode == 0
    ensures h.qdCount == 0 && h.anCount == 0 && h.nsCount == 0 && h.arCount == 0
    ensures FlagsFit(h)
  {
    Header(id, DNSQuery, 0, 0, 0, 0, 0, 0, 0, 0, 0, 0, 0)
  }

  /** Byte 2: `QR<<7 | OpCode<<3 | AA<<2 | TC<<1 | RD`, shifts truncated to 8 bits. */
  function FlagsHigh(h: Header): bv8
  {
    (h.qr << 7) | (h.opCode << 3) | (h.aa << 2) | (h.tc << 1) | h.rd
  }

  /** Byte 3: `RA<<7 | Z<<4 | RCode`. */
  function FlagsLow(h: Header): bv8
  {
    (h.ra << 7) | (h.z << 4) | h.rCode
  }

  /** `DNSHeader.Bytes`. */
  function Bytes(h: Header): (r: Octets)
    ensures |r| == 12
  {
    var id, qd, an, ns, ar := U16Wire(h.id), U16Wire(h.qdCount), U16Wire(h.anCount), U16Wire(h.nsCount), U16Wire(h.arCount);
    [id[0], id[1], ValueOf(FlagsHigh(h)), ValueOf(FlagsLow(h)), qd[0], qd[1], an[0], an[1], ns[0], ns[1], ar[0], ar[1]]
  }

  /** The ID and the four counts sit big-endian in bytes 0-1 and 4-11. */
  lemma BytesLayout(h: Header)
    ensures var r := Bytes(h);
      r[0..2] == U16Wire(h.id) && r[4..6] == U16Wire(h.qdCount) && r[6..8] == U16Wire(h.anCount)
      && r[8..10] == U16Wire(h.nsCount) && r[10..12] == U16Wire(h.arCount)
  {
    var r := Bytes(h);
    assert r[0..2] == [r[0], r[1]];
    assert r[4..6] == [r[4], r[5]];
    assert r[6..8] == [r[6], r[7]];
    assert r[8..10] == [r[8], r[9]];
    assert r[10..12] == [r[10], r[11]];
  }

  /** Bytes 2 and 3 are the two packed flag bytes. */
  lemma BytesFlags(h: Header)
    ensures Bytes(h)[2] == ValueOf(FlagsHigh(h)) && Bytes(h)[3] == ValueOf(FlagsLow(h))
  {
  }

  /** The header `Parse` fills in from 12 bytes: each field masked out of its bits. */
  function FromWire(s: Octets): (h: Header)
    requires |s| >= 12
  {
    var b2, b3 := Bits(s[2]), Bits(s[3]);
    Header(
      U16Of(s[0], s[1]),
      (b2 & 0x80) >> 7, (b2 >> 3) & 0x0F, (b2 & 0x04) >> 2, (b2 & 0x02) >> 1, b2 & 0x01,
      (b3 & 0x80) >> 7, (b3 >> 4) & 0x07, b3 & 0x0F,
      U16Of(s[4], s[5]), U16Of(s[6], s[7]), U16Of(s[8], s[9]), U16Of(s[10], s[11]))
  }

  /** `DNSHeader.Parse` at cursor `pos`: the header of the next 12 bytes, or an error
      when fewer remain. Every short read leaves the cursor at the end of the input. */
  function HeaderAt(data: Octets, pos: nat): (s: Step<Header>)
    requires pos <= |data|
    ensures s.result.Success? <==> pos + 12 <= |data|
    ensures s.result.Success? ==> s.next == pos + 12
    ensures s.result.Failure? ==> s.next == |data|
  {
    if pos + 12 <= |data| then Step(Success(FromWire(data[pos..pos + 12])), pos + 12)
    else Step(Failure(Truncated), |data|)
  }

  /** `DNSHeader.Parse(reader)`: the ID, the two flag bytes and the four counts, read
      in order; the first read that fails ends the parse. */
  method Parse(r: ByteReader) returns (h: Result<Header>)
    requires r.Valid()
    modifies r
    ensures r.Valid()
    ensures h.Success? <==> old(r.pos) + 12 <= |r.data|
    ensures h.Failure? ==> h.error == Truncated && r.pos == |r.data|
    ensures h.Success? ==> r.pos == old(r.pos) + 12
    ensures h.Success? ==> h.value == FromWire(r.data[old(r.pos)..old(r.pos) + 12])
  {
    ghost var p := r.pos;
    var id := r.ReadU16();
    if id.Failure? { return Failure(id.error); }
    assert r.pos == p + 2 && id.value == U16Of(r.data[p], r.data[p + 1]);
    var flags := r.ReadByte();
    if flags.Failure? { return Failure(flags.error); }
    var b2 := Bits(flags.value);
    assert r.pos == p + 3 && b2 == Bits(r.data[p + 2]);
    var qr, opCode, aa, tc, rd := (b2 & 0x80) >> 7, (b2 >> 3) & 0x0F, (b2 & 0x04) >> 2, (b2 & 0x02) >> 1, b2 & 0x01;
    flags := r.ReadByte();
    if flags.Failure? { return Failure(flags.error); }
    var b3 := Bits(flags.value);
    assert r.pos == p + 4 && b3 == Bits(r.data[p + 3]);
    var ra, z, rCode := (b3 & 0x80) >> 7, (b3 >> 4) & 0x07, b3 & 0x0F;
    var qd := r.ReadU16();
    if qd.Failure? { return Failure(qd.error); }
    assert r.pos == p + 6 && qd.value == U16Of(r.data[p + 4], r.data[p + 5]);
    var an := r.ReadU16();
    if an.Failure? { return Failure(an.error); }
    assert r.pos == p + 8 && an.value == U16Of(r.data[p + 6], r.data[p + 7]);
    var ns := r.ReadU16();
    if ns.Failure? { return Failure(ns.error); }
    assert r.pos == p + 10 && ns.value == U16Of(r.data[p + 8], r.data[p + 9]);
    var ar := r.ReadU16();
    if ar.Failure? { return Failure(ar.error); }
    assert r.pos == p + 12 && ar.value == U16Of(r.data[p + 10], r.data[p + 11]);
    h := Success(Header(id.value, qr, opCode, aa, tc, rd, ra, z, rCode, qd.value, an.value, ns.value, ar.value));
    FromWireAt(r.data, old(r.pos));
  }

  /** `FromWire` of the 12 bytes at `p`, field by field. */
  lemma FromWireAt(data: Octets, p: nat)
    requires p + 12 <= |data|
    ensures var b2, b3 := Bits(data[p + 2]), Bits(data[p + 3]);
      FromWire(data[p..p + 12]) == Header(
        U16Of(data[p], data[p + 1]),
        (b2 & 0x80) >> 7, (b2 >> 3) & 0x0F, (b2 & 0x04) >> 2, (b2 & 0x02) >> 1, b2 & 0x01,
        (b3 & 0x80) >> 7, (b3 >> 4) & 0x07, b3 & 0x0F,
        U16Of(data[p + 4], data[p + 5]), U16Of(data[p + 6], data[p + 7]),
        U16Of(data[p + 8], data[p + 9]), U16Of(data[p + 10], data[p + 11]))
  {
    var w := data[p..p + 12];
    assert w[0] == data[p] && w[1] == data[p + 1] && w[2] == data[p + 2] && w[3] == data[p + 3];
    assert w[4] == data[p + 4] && w[5] == data[p + 5] && w[6] == data[p + 6] && w[7] == data[p + 7];
    assert w[8] == data[p + 8] && w[9] == data[p + 9] && w[10] == data[p + 10] && w[11] == data[p + 11];
  }

  /** Whatever the input, a parsed header's flags fit their widths. */
  lemma ParsedFlagsFit(s: Octets)
    requires |s| >= 12
    ensures FlagsFit(FromWire(s))
  {
  }

  /** Unpacking the two packed flag bytes gives back every field that fits its width. */
  lemma FlagsRoundTrip(h: Header)
    requires FlagsFit(h)
    ensures var b2, b3 := FlagsHigh(h), FlagsLow(h);
      (b2 & 0x80) >> 7 == h.qr && (b2 >> 3) & 0x0F == h.opCode && (b2 & 0x04) >> 2 == h.aa
      && (b2 & 0x02) >> 1 == h.tc && b2 & 0x01 == h.rd
      && (b3 & 0x80) >> 7 == h.ra && (b3 >> 4) & 0x07 == h.z && b3 & 0x0F == h.rCode
  {
  }

  /** `Parse(Bytes(h)) == h` whenever the flags fit their widths. */
  lemma HeaderRoundTrip(h: Header)
    requires FlagsFit(h)
    ensures FromWire(Bytes(h)) == h
  {
    var s := Bytes(h);
    FlagsRoundTrip(h);
    BitsOfValue(FlagsHigh(h));
    BitsOfValue(FlagsLow(h));
    U16RoundTrip(h.id);
    U16RoundTrip(h.qdCount);
    U16RoundTrip(h.anCount);
    U16RoundTrip(h.nsCount);
    U16RoundTrip(h.arCount);
  }

  lemma FlagsConverse(h: Header, b2: bv8, b3: bv8)
    requires h.qr == (b2 & 0x80) >> 7 && h.opCode == (b2 >> 3) & 0x0F && h.aa == (b2 & 0x04) >> 2
    requires h.tc == (b2 & 0x02) >> 1 && h.rd == b2 & 0x01
    requires h.ra == (b3 & 0x80) >> 7 && h.z == (b3 >> 4) & 0x07 && h.rCode == b3 & 0x0F
    ensures FlagsHigh(h) == b2 && FlagsLow(h) == b3
  {
  }

  lemma SameTwelve(b: Octets, s: Octets)
    requires |b| == 12 && |s| >= 12
    requires b[0..2] == s[0..2] && b[2] == s[2] && b[3] == s[3] && b[4..6] == s[4..6]
    requires b[6..8] == s[6..8] && b[8..10] == s[8..10] && b[10..12] == s[10..12]
    ensures b == s[..12]
  {
    assert b == b[0..2] + [b[2], b[3]] + b[4..6] + b[6..8] + b[8..10] + b[10..12];
    assert s[..12] == s[0..2] + [s[2], s[3]] + s[4..6] + s[6..8] + s[8..10] + s[10..12];
  }

  lemma U16Slice(s: Octets, i: nat)
    requires i + 2 <= |s|
    ensures U16Wire(U16Of(s[i], s[i + 1])) == s[i..i + 2]
  {
    U16Converse(s[i], s[i + 1]);
  }

  lemma ConverseId(s: Octets)
    requires |s| >= 12
    ensures Bytes(FromWire(s))[0..2] == s[0..2]
  {
    BytesLayout(FromWire(s));
    U16Slice(s, 0);
  }

  lemma ConverseFlags(s: Octets)
    requires |s| >= 12
    ensures Bytes(FromWire(s))[2] == s[2] && Bytes(FromWire(s))[3] == s[3]
  {
    var h := FromWire(s);
    FlagsConverse(h, Bits(s[2]), Bits(s[3]));
    ValueOfBits(s[2]);
    ValueOfBits(s[3]);
    BytesFlags(h);
  }

  lemma ConverseCounts(s: Octets)
    requires |s| >= 12
    ensures Bytes(FromWire(s))[4..6] == s[4..6] && Bytes(FromWire(s))[6..8] == s[6..8]
    ensures Bytes(FromWire(s))[8..10] == s[8..10] && Bytes(FromWire(s))[10..12] == s[10..12]
  {
    BytesLayout(FromWire(s));
    U16Slice(s, 4);
    U16Slice(s, 6);
    U16Slice(s, 8);
    U16Slice(s, 10);
  }

  /** The masks cover all sixteen flag bits, so `Bytes(Parse(b))` gives back the first
      12 bytes of any input long enough. */
  lemma HeaderConverse(s: Octets)
    requires |s| >= 12
    ensures Bytes(FromWire(s)) == s[..12]
  {
    ConverseId(s);
    ConverseFlags(s);
    ConverseCounts(s);
    SameTwelve(Bytes(FromWire(s)), s);
  }

  /** A header written into a message is read back whole, and the cursor lands just
      past it. */
  lemma HeaderAtBytes(data: Octets, pos: nat, h: Header)
    requires FlagsFit(h) && At(data, pos, Bytes(h))
    ensures HeaderAt(data, pos) == Step(Success(h), pos + 12)
  {
    AtSlice(data, pos, Bytes(h));
    HeaderRoundTrip(h);
  }

  /** The header of the unit test: ID 123, RD set, one question. */
  lemma TestHeader()
    ensures var h := Header(123, DNSQuery, 0, 0, 0, 1, 0, 0, 0, 1, 0, 0, 0);
      Bytes(h) == [0x00, 0x7B, 0x01, 0x00, 0x00, 0x01, 0x00, 0x00, 0x00, 0x00, 0x00, 0x00]
      && FromWire(Bytes(h)) == h
  {
    HeaderRoundTrip(Header(123, DNSQuery, 0, 0, 0, 1, 0, 0, 0, 1, 0, 0, 0));
  }
}
