/**
  The resource-record framework (section 4.1.3 of RFC 1035): the common prefix
  (owner name, TYPE, CLASS, TTL), dispatch on the type code, RDLENGTH and RDATA.

  Both revisions parse records the same way except that only the current one
  knows EDNS (type 0x29). They differ in how records are written: the current
  revision wraps each payload with `WrapData`, writing the owner name without a
  forced terminator; in the older revision the SOA, SRV and CNAME records inherit
  the base `Bytes`, which calls the base `Encode`, and that panics.
 */
module Resources {
  import opened Wire
  import opened Names
  import opened Addresses
  import opened Records
  import opened Edns
  import opened Soa
  import opened Srv

  const TypeA: U16 := 0x01
  const TypeNS: U16 := 0x02
  const TypeCNAME: U16 := 0x05
  const TypeSOA: U16 := 0x06
  const TypePTR: U16 := 0x0C
  const TypeMX: U16 := 0x0F
  const TypeTXT: U16 := 0x10
  const TypeAAAA: U16 := 0x1C
  const TypeSRV: U16 := 0x21
  const TypeEDNS: U16 := 0x29

  /** The current revision (`packet/`) and the older one (`dns/`). */
  datatype Revision = Current | Legacy

  /** `DNSResourceRecord`: the fields every record starts with. */
  datatype Prefix = Prefix(name: Octets, rtype: U16, rclass: U16, ttl: U32)

  /** A record: the common prefix and the payload of its type. */
  datatype Record = Record(prefix: Prefix, payload: Payload)

  /** `GetType`. */
  function GetType(rec: Record): U16
  {
    rec.prefix.rtype
  }

  /** The type codes `ParseResource` has a case for. */
  predicate Dispatched(rev: Revision, t: U16)
  {
    t == TypeA || t == TypeAAAA || t == TypeSOA || t == TypeTXT || t == TypeNS
      || t == TypeSRV || t == TypeCNAME || (rev == Current && t == TypeEDNS)
  }

  /** The type code of each payload variant. */
  function KindOf(p: Payload): U16
  {
    match p
    case A(_) => TypeA
    case AAAA(_) => TypeAAAA
    case NS(_) => TypeNS
    case TXT(_) => TypeTXT
    case EDNS(_, _, _, _, _) => TypeEDNS
    case SOA(_, _, _, _, _, _, _) => TypeSOA
    case SRV(_, _, _, _) => TypeSRV
    case CNAME(_) => TypeCNAME
  }

  // ---------------------------------------------------------------------------
  // Decoding: ParseResource
  // ---------------------------------------------------------------------------

  /** The prefix part of `ParseResource`: the owner name, then TYPE and CLASS
      (16 bits) and TTL (32 bits), big-endian, each read with `binary.Read`; the
      first failure is the result. */
  function PrefixAt(data: Octets, pos: nat): (s: Step<Prefix>)
    requires pos <= |data|
    ensures pos <= s.next <= |data|
    ensures s.result.Success? <==> NameAt(data, pos).result.Success? && NameAt(data, pos).next + 8 <= |data|
    ensures s.result.Success? ==> s.next == NameAt(data, pos).next + 8
  {
    var n := NameAt(data, pos);
    if n.result.Failure? then Step(Failure(n.result.error), n.next)
    else
      var t := U16At(data, n.next);
      if t.result.Failure? then Step(Failure(t.result.error), t.next)
      else
        var c := U16At(data, t.next);
        if c.result.Failure? then Step(Failure(c.result.error), c.next)
        else
          var l := U32At(data, c.next);
          if l.result.Failure? then Step(Failure(l.result.error), l.next)
          else Step(Success(Prefix(n.result.value, t.result.value, c.result.value, l.result.value)), l.next)
  }

  /** `record.Decode(reader, rdLength)` for the variant the type selects. */
  function PayloadAt(data: Octets, pos: nat, prefix: Prefix, length: U16): (m: Moved<Payload>)
    requires pos <= |data| && Dispatched(Current, prefix.rtype)
    ensures KindOf(m.value) == prefix.rtype && pos <= m.next <= |data|
  {
    var t := prefix.rtype;
    if t == TypeA then AAt(data, pos, length)
    else if t == TypeAAAA then AAAAAt(data, pos, length)
    else if t == TypeSOA then SOAAt(data, pos, length)
    else if t == TypeTXT then TXTAt(data, pos, length)
    else if t == TypeNS then NSAt(data, pos, length)
    else if t == TypeSRV then SRVAt(data, pos, length)
    else if t == TypeCNAME then CNAMEAt(data, pos, length)
    else EDNSAt(data, pos, prefix.rclass, prefix.ttl)
  }

  /** `ParseResource` at cursor `pos`. A type without a case is an error naming the
      code, raised before RDLENGTH is read; once RDLENGTH is read the payload
      decoder runs and nothing it finds is an error. */
  function ResourceAt(rev: Revision, data: Octets, pos: nat): (s: Step<Record>)
    requires pos <= |data|
    ensures pos <= s.next <= |data|
    ensures var p := PrefixAt(data, pos);
      s.result.Success? <==> p.result.Success? && Dispatched(rev, p.result.value.rtype) && p.next + 2 <= |data|
    ensures var p := PrefixAt(data, pos);
      s.result.Success? ==> s.result.value.prefix == p.result.value && KindOf(s.result.value.payload) == p.result.value.rtype
    ensures var p := PrefixAt(data, pos);
      p.result.Success? && !Dispatched(rev, p.result.value.rtype) ==> s == Step(Failure(UnknownType(p.result.value.rtype)), p.next)
  {
    var p := PrefixAt(data, pos);
    if p.result.Failure? then Step(Failure(p.result.error), p.next)
    else RecordAfter(rev, data, p.result.value, p.next)
  }

  /** The rest of `ParseResource` once the prefix is read and the cursor is at `q`. */
  function RecordAfter(rev: Revision, data: Octets, prefix: Prefix, q: nat): (s: Step<Record>)
    requires q <= |data|
    ensures q <= s.next <= |data|
    ensures s.result.Success? <==> Dispatched(rev, prefix.rtype) && q + 2 <= |data|
    ensures s.result.Success? ==> s.result.value.prefix == prefix && KindOf(s.result.value.payload) == prefix.rtype
    ensures !Dispatched(rev, prefix.rtype) ==> s == Step(Failure(UnknownType(prefix.rtype)), q)
  {
    if !Dispatched(rev, prefix.rtype) then Step(Failure(UnknownType(prefix.rtype)), q)
    else
      var length := U16At(data, q);
      if length.result.Failure? then Step(Failure(length.result.error), length.next)
      else
        var m := PayloadAt(data, length.next, prefix, length.result.value);
        Step(Success(Record(prefix, m.value)), m.next)
  }

  method ParsePrefix(r: ByteReader) returns (p: Result<Prefix>)
    requires r.Valid()
    modifies r
    ensures r.Valid() && Step(p, r.pos) == PrefixAt(r.data, old(r.pos))
  {
    var name := DecodeDomainName(r);
    if name.Failure? {
      return Failure(name.error);
    }
    var rtype := r.ReadU16();
    if rtype.Failure? {
      return Failure(rtype.error);
    }
    var rclass := r.ReadU16();
    if rclass.Failure? {
      return Failure(rclass.error);
    }
    var ttl := r.ReadU32();
    if ttl.Failure? {
      return Failure(ttl.error);
    }
    p := Success(Prefix(name.value, rtype.value, rclass.value, ttl.value));
  }

  method DecodePayload(r: ByteReader, prefix: Prefix, length: U16) returns (p: Payload)
    requires r.Valid() && Dispatched(Current, prefix.rtype)
    modifies r
    ensures r.Valid() && Moved(p, r.pos) == PayloadAt(r.data, old(r.pos), prefix, length)
  {
    var t := prefix.rtype;
    if t == TypeA {
      p := DecodeA(r, length);
    } else if t == TypeAAAA {
      p := DecodeAAAA(r, length);
    } else if t == TypeSOA {
      p := DecodeSOA(r, length);
    } else if t == TypeTXT {
      p := DecodeTXT(r, length);
    } else if t == TypeNS {
      p := DecodeNS(r, length);
    } else if t == TypeSRV {
      p := DecodeSRV(r, length);
    } else if t == TypeCNAME {
      p := DecodeCNAME(r, length);
    } else {
      p := DecodeEDNS(r, prefix.rclass, prefix.ttl, length);
    }
  }

  /** `ParseResource(reader)`. */
  method ParseResource(rev: Revision, r: ByteReader) returns (rec: Result<Record>)
    requires r.Valid()
    modifies r
    ensures r.Valid() && Step(rec, r.pos) == ResourceAt(rev, r.data, old(r.pos))
  {
    var prefix := ParsePrefix(r);
    if prefix.Failure? {
      return Failure(prefix.error);
    }
    if !Dispatched(rev, prefix.value.rtype) {
      return Failure(UnknownType(prefix.value.rtype));
    }
    var length := r.ReadU16();
    if length.Failure? {
      return Failure(length.error);
    }
    var payload := DecodePayload(r, prefix.value, length.value);
    rec := Success(Record(prefix.value, payload));
  }

  /** The type `ParseResource` reports is the 16 bits right after the owner name. */
  lemma ParsedType(rev: Revision, data: Octets, pos: nat)
    requires pos <= |data| && ResourceAt(rev, data, pos).result.Success?
    ensures var n := NameAt(data, pos).next;
      n + 2 <= |data| && GetType(ResourceAt(rev, data, pos).result.value) == U16Of(data[n], data[n + 1])
  {
  }

  // ---------------------------------------------------------------------------
  // Encoding: Encode, WrapData and Bytes
  // ---------------------------------------------------------------------------

  /** `Encode()` of each variant (for NS, the terminated form). */
  function PayloadWire(p: Payload): Octets
  {
    match p
    case A(address) => AWire(address)
    case AAAA(address) => AAAAWire(address)
    case NS(nameServer) => NameWire(nameServer, true)
    case TXT(content) => TXTWire(content)
    case EDNS(_, _, _, _, _) => EDNSWire(p)
    case SOA(_, _, _, _, _, _, _) => SOAWire(p)
    case SRV(_, _, _, _) => SRVWire(p)
    case CNAME(domain) => NameWire(domain, true)
  }

  method Encode(p: Payload) returns (b: Octets)
    ensures b == PayloadWire(p)
  {
    match p
    case A(address) => b := AWire(address);
    case AAAA(address) => b := AAAAWire(address);
    case NS(nameServer) => b := EncodeName(nameServer);
    case TXT(content) => b := TXTWire(content);
    case EDNS(_, _, _, _, _) => b := EncodeEDNS(p);
    case SOA(_, _, _, _, _, _, _) => b := EncodeSOA(p);
    case SRV(_, _, _, _) => b := EncodeSRV(p);
    case CNAME(domain) => b := EncodeName(domain);
  }

  /** What `WrapData(rdData)` writes: the owner name without a forced terminator,
      TYPE, CLASS, TTL, RDLENGTH (the length truncated to 16 bits) and the data. */
  function WrapWire(prefix: Prefix, rd: Octets): Octets
  {
    NameWire(prefix.name, false) + U16Wire(prefix.rtype) + U16Wire(prefix.rclass)
      + U32Wire(prefix.ttl) + U16Wire(Len16(|rd|)) + rd
  }

  /** `r.WrapData(rdData)`. */
  method WrapData(prefix: Prefix, rd: Octets) returns (b: Octets)
    ensures b == WrapWire(prefix, rd)
  {
    var buf := new Buffer();
    EncodeDomainName(buf, prefix.name, false);
    assert buf.bytes == NameWire(prefix.name, false);
    buf.WriteU16(prefix.rtype);
    buf.WriteU16(prefix.rclass);
    buf.WriteU32(prefix.ttl);
    buf.WriteU16(Len16(|rd|));
    buf.Write(rd);
    b := buf.bytes;
  }

  /** What `Bytes()` writes for a record it can write: `WrapData(Encode())`. */
  function RecordWire(rec: Record): Octets
  {
    WrapWire(rec.prefix, PayloadWire(rec.payload))
  }

  /** The records the revision's `Bytes` can write: every record in the current
      revision; in the older one all but SOA, SRV, CNAME and EDNS. */
  predicate Encodes(rev: Revision, rec: Record)
  {
    !(rev == Legacy && (rec.payload.SOA? || rec.payload.SRV? || rec.payload.CNAME? || rec.payload.EDNS?))
  }

  /** `Bytes()` of a record. In the current revision A, AAAA, TXT and EDNS define
      `Bytes` as `WrapData(Encode())`; NS, SOA, SRV and CNAME have no `Bytes` of
      their own there, and are taken to write the same way. In the older revision
      SOA, SRV and CNAME (and EDNS, which it lacks) fall back to the base `Bytes`,
      whose call to the base `Encode` panics. */
  function RecordBytes(rev: Revision, rec: Record): (b: Result<Octets>)
    ensures b.Success? <==> Encodes(rev, rec)
    ensures b.Failure? ==> b.error == Panic
  {
    if !Encodes(rev, rec) then Failure(Panic) else Success(RecordWire(rec))
  }

  method Bytes(rev: Revision, rec: Record) returns (b: Result<Octets>)
    ensures b == RecordBytes(rev, rec)
  {
    if !Encodes(rev, rec) {
      return Failure(Panic);
    }
    var rd := Encode(rec.payload);
    var w := WrapData(rec.prefix, rd);
    b := Success(w);
  }

  /** The wrapped record is the name, 10 bytes of fixed fields and the data; the
      RDLENGTH field holds the data's length modulo 2^16. */
  lemma WrapLayout(prefix: Prefix, rd: Octets)
    ensures var w, k := WrapWire(prefix, rd), |NameWire(prefix.name, false)|;
      |w| == k + 10 + |rd|
      && w[k..k + 2] == U16Wire(prefix.rtype) && w[k + 2..k + 4] == U16Wire(prefix.rclass)
      && w[k + 4..k + 8] == U32Wire(prefix.ttl)
      && U16Of(w[k + 8], w[k + 9]) as int == |rd| % 0x1_0000 && w[k + 10..] == rd
  {
    var w, k := WrapWire(prefix, rd), |NameWire(prefix.name, false)|;
    var len := Len16(|rd|);
    U16RoundTrip(len);
    assert w[k + 8] == U16Wire(len)[0] && w[k + 9] == U16Wire(len)[1];
  }

  /** An A record carries RDLENGTH 4 when its address is IPv4 text and 0 otherwise;
      an AAAA record carries 16 for any address text and 0 otherwise. */
  lemma AddressRdLength(rev: Revision, rec: Record)
    requires rec.payload.A? || rec.payload.AAAA?
    ensures var w, k := RecordBytes(rev, rec).value, |NameWire(rec.prefix.name, false)|;
      var t := rec.payload.address;
      U16Of(w[k + 8], w[k + 9]) as int == |w| - k - 10
      && (rec.payload.A? ==> |w| - k - 10 == (if (t.Dotted? && |t.quad| == 4) || (t.Colon? && IsV4Mapped(t.address)) then 4 else 0))
      && (rec.payload.AAAA? ==> |w| - k - 10 == (if (t.Dotted? && |t.quad| == 4) || (t.Colon? && |t.address| == 16) then 16 else 0))
  {
    WrapLayout(rec.prefix, PayloadWire(rec.payload));
    AddressWireLength(rec.payload.address);
  }

  /** An EDNS record is written with the CLASS and TTL of its prefix; the UDP size,
      extended RCODE, version and flags go only into the RDATA. */
  lemma EDNSBytesUsePrefix(rec: Record)
    requires rec.payload.EDNS?
    ensures var w, k := RecordBytes(Current, rec).value, |NameWire(rec.prefix.name, false)|;
      w[k + 2..k + 4] == U16Wire(rec.prefix.rclass) && w[k + 4..k + 8] == U32Wire(rec.prefix.ttl)
      && w[k + 10..] == EDNSWire(rec.payload)
  {
    WrapLayout(rec.prefix, PayloadWire(rec.payload));
  }

  // ---------------------------------------------------------------------------
  // Round trips
  // ---------------------------------------------------------------------------

  /** Where each field of a wrapped record sits in the input: the owner name's
      encoding `nw`, then TYPE, CLASS, TTL, RDLENGTH and the data. */
  lemma FrameFields(data: Octets, pos: nat, nw: Octets, prefix: Prefix, rd: Octets)
    requires At(data, pos, nw + U16Wire(prefix.rtype) + U16Wire(prefix.rclass) + U32Wire(prefix.ttl)
      + U16Wire(Len16(|rd|)) + rd)
    ensures At(data, pos, nw) && At(data, pos + |nw|, U16Wire(prefix.rtype))
      && At(data, pos + |nw| + 2, U16Wire(prefix.rclass)) && At(data, pos + |nw| + 4, U32Wire(prefix.ttl))
      && At(data, pos + |nw| + 8, U16Wire(Len16(|rd|))) && At(data, pos + |nw| + 10, rd)
  {
    var head := nw + U16Wire(prefix.rtype) + U16Wire(prefix.rclass) + U32Wire(prefix.ttl);
    AtSplit3(data, pos, head, U16Wire(Len16(|rd|)), rd);
    AtSplit4(data, pos, nw, U16Wire(prefix.rtype), U16Wire(prefix.rclass), U32Wire(prefix.ttl));
  }

  /** A prefix whose owner name ends in '.' is read back from its wrapped form, with
      the trailing dot gone: the empty last label supplied the zero byte. */
  lemma PrefixRoundTrip(data: Octets, pos: nat, prefix: Prefix, base: Octets, rd: Octets)
    requires prefix.name == base + [Dot] && WellFormed(base)
    requires At(data, pos, WrapWire(prefix, rd))
    ensures PrefixAt(data, pos) == Step(Success(prefix.(name := base)), pos + |NameWire(prefix.name, false)| + 8)
  {
    var k := |NameWire(prefix.name, false)|;
    FrameFields(data, pos, NameWire(prefix.name, false), prefix, rd);
    TrailingDotTerminates(base);
    NameRoundTrip(data, pos, base);
    U16AtWire(data, pos + k, prefix.rtype);
    U16AtWire(data, pos + k + 2, prefix.rclass);
    U32AtWire(data, pos + k + 4, prefix.ttl);
  }

  /** A well-formed owner name without the trailing dot is written with no zero
      byte, so when the type code is below 256 its high byte ends the name: the name
      comes back, but every later field is read one byte late, and the type read is
      the low byte of TYPE followed by the high byte of CLASS. */
  lemma UnterminatedNameShifts(data: Octets, pos: nat, prefix: Prefix, rd: Octets)
    requires WellFormed(prefix.name) && prefix.rtype < 0x100
    requires At(data, pos, WrapWire(prefix, rd))
    ensures var s, k := PrefixAt(data, pos), |NameWire(prefix.name, false)|;
      s.result.Success? && s.next == pos + k + 9
      && s.result.value.name == prefix.name
      && s.result.value.rtype == U16Of(prefix.rtype as Byte, U16Wire(prefix.rclass)[0])
  {
    var nw := NameWire(prefix.name, false);
    var k := |nw|;
    FrameFields(data, pos, NameWire(prefix.name, false), prefix, rd);
    U16WireOfByte(prefix.rtype);
    AtSplit(data, pos + k, [0], [prefix.rtype as Byte]);
    ShiftedName(data, pos, prefix.name);
  }

  /** A well-formed name written without its zero byte, followed by a zero byte,
      is read back whole. */
  lemma ShiftedName(data: Octets, pos: nat, name: Octets)
    requires WellFormed(name)
    requires At(data, pos, NameWire(name, false)) && At(data, pos + |NameWire(name, false)|, [0])
    ensures NameAt(data, pos) == Step(Success(name), pos + |NameWire(name, false)| + 1)
  {
    var labels := Split(name);
    assert NameWire(name, false) == LabelsWire(labels);
    AtJoin(data, pos, NameWire(name, false), [0]);
    ChainRoundTrip(data, pos, [], labels);
    assert [] + labels == labels;
    JoinSplit(name);
  }

  /** The payloads whose wire form decodes back to themselves: not EDNS, names
      well-formed, IPv4 text for A, address text for AAAA (an IPv4-mapped address
      given as colon text comes back as a dotted quad), and content that fits
      RDLENGTH. */
  predicate RoundTrips(p: Payload)
  {
    match p
    case A(t) => t.Dotted? && |t.quad| == 4
    case AAAA(t) => (t.Dotted? && |t.quad| == 4) || (t.Colon? && |t.address| == 16 && !IsV4Mapped(t.address))
    case NS(n) => WellFormed(n)
    case TXT(c) => |c| < 0x1_0000
    case EDNS(_, _, _, _, _) => false
    case SOA(m, r, _, _, _, _, _) => WellFormed(m) && WellFormed(r)
    case SRV(_, _, _, target) => WellFormed(target)
    case CNAME(d) => WellFormed(d)
  }

  /** A payload written at `pos` is decoded back by the decoder of its type, given
      RDLENGTH as `Bytes` writes it; its type is one both revisions dispatch on. */
  lemma PayloadRoundTrip(data: Octets, pos: nat, prefix: Prefix, p: Payload)
    requires RoundTrips(p) && prefix.rtype == KindOf(p)
    requires At(data, pos, PayloadWire(p))
    ensures Dispatched(Legacy, prefix.rtype)
    ensures PayloadAt(data, pos, prefix, Len16(|PayloadWire(p)|)) == Moved(p, pos + |PayloadWire(p)|)
  {
    var length := Len16(|PayloadWire(p)|);
    match p
    case A(t) => ATextRoundTrip(data, pos, t);
    case AAAA(t) => AAAATextRoundTrip(data, pos, t);
    case NS(n) => NSRoundTrip(data, pos, n, length);
    case TXT(c) => TXTRoundTrip(data, pos, c);
    case SOA(_, _, _, _, _, _, _) => SOARoundTrip(data, pos, p, length);
    case SRV(_, _, _, _) => SRVRoundTrip(data, pos, p, length);
    case CNAME(d) => CNAMERoundTrip(data, pos, d, length);
  }

  /** A record written by the current revision's `Bytes`, with an owner name that
      ends in '.', is parsed back by either revision: the same record, with the
      trailing dot gone, and the reader just past it. */
  lemma RecordRoundTrip(rev: Revision, data: Octets, pos: nat, rec: Record, base: Octets)
    requires rec.prefix.name == base + [Dot] && WellFormed(base)
    requires RoundTrips(rec.payload) && rec.prefix.rtype == KindOf(rec.payload)
    requires At(data, pos, RecordBytes(Current, rec).value)
    ensures ResourceAt(rev, data, pos)
      == Step(Success(Record(rec.prefix.(name := base), rec.payload)), pos + |RecordBytes(Current, rec).value|)
  {
    assert RecordBytes(Current, rec).value == WrapWire(rec.prefix, PayloadWire(rec.payload));
    WrappedRoundTrip(rev, data, pos, rec.prefix, base, rec.payload);
  }

  /** `RecordRoundTrip` for the wrapped form itself. */
  lemma WrappedRoundTrip(rev: Revision, data: Octets, pos: nat, prefix: Prefix, base: Octets, p: Payload)
    requires prefix.name == base + [Dot] && WellFormed(base)
    requires RoundTrips(p) && prefix.rtype == KindOf(p)
    requires At(data, pos, WrapWire(prefix, PayloadWire(p)))
    ensures ResourceAt(rev, data, pos)
      == Step(Success(Record(prefix.(name := base), p)), pos + |WrapWire(prefix, PayloadWire(p))|)
  {
    var rd := PayloadWire(p);
    var parsed := prefix.(name := base);
    var q := FrameRoundTrip(data, pos, prefix, base, rd);
    PayloadRoundTrip(data, q + 2, parsed, p);
    ResourceAfterPrefix(rev, data, pos, parsed, q);
    RecordAfterParts(rev, data, parsed, q, Len16(|rd|), p, q + 2 + |rd|);
  }

  /** The frame of a wrapped record read back: the prefix (with the trailing dot
      gone) up to `q`, RDLENGTH at `q`, and the data after it. */
  lemma FrameRoundTrip(data: Octets, pos: nat, prefix: Prefix, base: Octets, rd: Octets) returns (q: nat)
    requires prefix.name == base + [Dot] && WellFormed(base)
    requires At(data, pos, WrapWire(prefix, rd))
    ensures pos <= |data| && PrefixAt(data, pos) == Step(Success(prefix.(name := base)), q)
    ensures q + 2 <= |data| && U16At(data, q) == Step(Success(Len16(|rd|)), q + 2)
    ensures At(data, q + 2, rd) && q + 2 + |rd| == pos + |WrapWire(prefix, rd)|
  {
    q := pos + |NameWire(prefix.name, false)| + 8;
    PrefixRoundTrip(data, pos, prefix, base, rd);
    FrameFields(data, pos, NameWire(prefix.name, false), prefix, rd);
    U16AtWire(data, q, Len16(|rd|));
  }

  /** Once the prefix is read, `ParseResource` goes on from the cursor after it. */
  lemma ResourceAfterPrefix(rev: Revision, data: Octets, pos: nat, prefix: Prefix, q: nat)
    requires pos <= |data| && PrefixAt(data, pos) == Step(Success(prefix), q)
    ensures ResourceAt(rev, data, pos) == RecordAfter(rev, data, prefix, q)
  {
  }

  /** The rest of `ParseResource` put together from its parts: a dispatched type,
      RDLENGTH, and the payload decoded after it. */
  lemma RecordAfterParts(rev: Revision, data: Octets, prefix: Prefix, q: nat, length: U16,
                         payload: Payload, next: nat)
    requires q + 2 <= |data| && Dispatched(rev, prefix.rtype)
    requires U16At(data, q) == Step(Success(length), q + 2)
    requires PayloadAt(data, q + 2, prefix, length) == Moved(payload, next)
    ensures RecordAfter(rev, data, prefix, q) == Step(Success(Record(prefix, payload)), next)
  {
  }
}
