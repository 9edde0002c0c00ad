/**
  The OPT pseudo-record of EDNS (RFC 6891), as the current revision of the codec
  handles it. Decoding takes the UDP payload size from the record's CLASS and the
  extended RCODE, version and flags from its TTL (section 6.1.3 of RFC 6891), then
  reads options until the reader is empty: the whole rest of the message, not just
  RDLENGTH bytes. Encoding writes the four derived fields in front of the options,
  so the two are not inverses (section 6.1.2 of RFC 6891 puts only options in the
  RDATA).
 */
module Edns {
  import opened Wire
  import opened Records

  /** One option read at `pos`: a code and a length, each read with `binary.Read`
      (zero when the input runs out), then `length` bytes read with `reader.Read`.
      Every option consumes at least one byte. */
  function OptionAt(data: Octets, pos: nat): (m: Moved<EdnsOption>)
    requires pos < |data|
    ensures pos < m.next <= |data|
  {
    var code := U16At(data, pos);
    var length := U16At(data, code.next);
    var content := ReadAt(data, length.next, ValueOr(length.result, 0) as nat);
    Moved(EdnsOption(ValueOr(code.result, 0), content.bytes), content.next)
  }

  /** The options read from `pos` to the end of the input, after those already in
      `acc`. */
  function OptionsAt(data: Octets, pos: nat, acc: seq<EdnsOption>): (m: Moved<seq<EdnsOption>>)
    requires pos <= |data|
    ensures m.next == |data|
    ensures |acc| <= |m.value| && m.value[..|acc|] == acc
    decreases |data| - pos
  {
    if pos == |data| then Moved(acc, pos)
    else
      var o := OptionAt(data, pos);
      var more := OptionsAt(data, o.next, acc + [o.value]);
      assert more.value[..|acc|] == (more.value[..|acc| + 1])[..|acc|];
      more
  }

  /** `DNSResourceRecordEDNS.Decode(reader, length)` on a record whose prefix carried
      `rclass` and `ttl`; `length` is ignored. */
  function EDNSAt(data: Octets, pos: nat, rclass: U16, ttl: U32): (m: Moved<Payload>)
    requires pos <= |data|
    ensures m.value.EDNS? && m.next == |data|
    ensures m.value.udpSize == rclass
    ensures m.value.extRCode as int * 0x100_0000 + m.value.version as int * 0x1_0000
      + m.value.flags as int == ttl as int
  {
    var o := OptionsAt(data, pos, []);
    Moved(EDNS(rclass, (ttl / 0x100_0000) as Byte, (ttl / 0x1_0000 % 0x100) as Byte,
      (ttl % 0x1_0000) as U16, o.value), o.next)
  }

  method DecodeEDNS(r: ByteReader, rclass: U16, ttl: U32, length: U16) returns (p: Payload)
    requires r.Valid()
    modifies r
    ensures r.Valid() && Moved(p, r.pos) == EDNSAt(r.data, old(r.pos), rclass, ttl)
  {
    var options: seq<EdnsOption> := [];
    while r.Len() > 0
      invariant r.Valid()
      invariant OptionsAt(r.data, r.pos, options) == OptionsAt(r.data, old(r.pos), [])
      decreases r.Len()
    {
      var code := r.ReadU16();
      var length := r.ReadU16();
      var content, _ := r.Read(ValueOr(length, 0) as nat);
      options := options + [EdnsOption(ValueOr(code, 0), content)];
    }
    p := EDNS(rclass, (ttl / 0x100_0000) as Byte, (ttl / 0x1_0000 % 0x100) as Byte,
      (ttl % 0x1_0000) as U16, options);
  }

  /** One option as `Encode` writes it: code, 16-bit length, data. */
  function OptionWire(o: EdnsOption): Octets
  {
    U16Wire(o.code) + U16Wire(Len16(|o.data|)) + o.data
  }

  /** The options one after another, in order. */
  function OptionsWire(options: seq<EdnsOption>): Octets
  {
    if options == [] then [] else OptionWire(options[0]) + OptionsWire(options[1..])
  }

  /** Every option's data fits the 16-bit length field. */
  predicate AllFit(options: seq<EdnsOption>)
  {
    options == [] || (|options[0].data| < 0x1_0000 && AllFit(options[1..]))
  }

  /** Four bytes of code and length for each option, plus its data. */
  function OptionsSize(options: seq<EdnsOption>): nat
  {
    if options == [] then 0 else 4 + |options[0].data| + OptionsSize(options[1..])
  }

  /** The RDATA `DNSResourceRecordEDNS.Encode` writes. */
  function EDNSWire(p: Payload): Octets
    requires p.EDNS?
  {
    U16Wire(p.udpSize) + [p.extRCode] + [p.version] + U16Wire(p.flags) + OptionsWire(p.options)
  }

  /** Writing one more option extends the wire form by that option. */
  lemma {:induction false} OptionsWireSnoc(options: seq<EdnsOption>, o: EdnsOption)
    ensures OptionsWire(options + [o]) == OptionsWire(options) + OptionWire(o)
  {
    if options == [] {
      assert [] + [o] == [o] && [o][1..] == [];
    } else {
      assert (options + [o])[0] == options[0] && (options + [o])[1..] == options[1..] + [o];
      OptionsWireSnoc(options[1..], o);
    }
  }

  /** The options up to `i + 1` are those up to `i`, then option `i`. */
  lemma OptionsPrefixStep(options: seq<EdnsOption>, i: nat)
    requires i < |options|
    ensures OptionsWire(options[..i + 1]) == OptionsWire(options[..i]) + OptionWire(options[i])
  {
    assert options[..i + 1] == options[..i] + [options[i]];
    OptionsWireSnoc(options[..i], options[i]);
  }

  lemma Regroup3<T>(a: seq<T>, b: seq<T>, c: seq<T>, d: seq<T>)
    ensures a + b + c + d == a + (b + c + d)
  {
  }

  /** `DNSResourceRecordEDNS.Encode`. */
  method EncodeEDNS(p: Payload) returns (b: Octets)
    requires p.EDNS?
    ensures b == EDNSWire(p)
  {
    var buf := new Buffer();
    buf.WriteU16(p.udpSize);
    assert buf.bytes == U16Wire(p.udpSize);
    buf.WriteByte(p.extRCode);
    buf.WriteByte(p.version);
    buf.WriteU16(p.flags);
    WriteOptions(buf, p.options);
    b := buf.bytes;
  }

  /** The option loop of `Encode`: code, length and data of each option, in order. */
  method WriteOptions(buf: Buffer, options: seq<EdnsOption>)
    modifies buf
    ensures buf.bytes == old(buf.bytes) + OptionsWire(options)
  {
    var i := 0;
    while i < |options|
      invariant i <= |options|
      invariant buf.bytes == old(buf.bytes) + OptionsWire(options[..i])
    {
      var o := options[i];
      var before := buf.bytes;
      buf.WriteU16(o.code);
      buf.WriteU16(Len16(|o.data|));
      buf.Write(o.data);
      Regroup3(before, U16Wire(o.code), U16Wire(Len16(|o.data|)), o.data);
      OptionsPrefixStep(options, i);
      Regroup(old(buf.bytes), OptionsWire(options[..i]), OptionWire(o));
      i := i + 1;
    }
    assert options[..i] == options;
  }

  /** Options take 4 bytes each plus their data: the length field is always two
      bytes, whatever value the truncation leaves in it. */
  lemma {:induction false} OptionsWireLength(options: seq<EdnsOption>)
    ensures |OptionsWire(options)| == OptionsSize(options)
  {
    if options != [] {
      OptionsWireLength(options[1..]);
    }
  }

  /** The encoded payload is 6 + the sum of (4 + data length) over the options. */
  lemma EDNSWireLength(p: Payload)
    requires p.EDNS?
    ensures |EDNSWire(p)| == 6 + OptionsSize(p.options)
  {
    OptionsWireLength(p.options);
  }

  /** One option written at `pos` is read as that option, and reading goes on just
      past it. */
  lemma OptionStep(data: Octets, pos: nat, o: EdnsOption)
    requires |o.data| < 0x1_0000 && At(data, pos, OptionWire(o))
    ensures OptionAt(data, pos) == Moved(o, pos + |OptionWire(o)|)
  {
    var length := Len16(|o.data|);
    AtSplit(data, pos, U16Wire(o.code) + U16Wire(length), o.data);
    AtSplit(data, pos, U16Wire(o.code), U16Wire(length));
    U16AtWire(data, pos, o.code);
    U16AtWire(data, pos + 2, length);
    assert length as nat == |o.data|;
    var content := ReadAt(data, pos + 4, |o.data|);
    AtSlice(data, pos + 4, o.data);
    assert content.bytes == data[pos + 4..pos + 4 + |o.data|] == o.data;
  }

  /** Options written at the end of the input are read back in wire order, after
      whatever was read before them. */
  lemma {:induction false} OptionsRoundTrip(data: Octets, pos: nat, options: seq<EdnsOption>, acc: seq<EdnsOption>)
    requires AllFit(options)
    requires At(data, pos, OptionsWire(options)) && pos + |OptionsWire(options)| == |data|
    ensures OptionsAt(data, pos, acc) == Moved(acc + options, |data|)
    decreases |options|
  {
    if options == [] {
      assert acc + [] == acc;
    } else {
      var next := FirstOption(data, pos, options, acc);
      OptionsRoundTrip(data, next, options[1..], acc + [options[0]]);
    }
  }

  /** Options written at `pos` are read as the first option, and reading goes on
      with the rest right after it. */
  lemma FirstOption(data: Octets, pos: nat, options: seq<EdnsOption>, acc: seq<EdnsOption>) returns (next: nat)
    requires options != [] && AllFit(options)
    requires At(data, pos, OptionsWire(options)) && pos + |OptionsWire(options)| == |data|
    ensures AllFit(options[1..])
    ensures At(data, next, OptionsWire(options[1..])) && next + |OptionsWire(options[1..])| == |data|
    ensures OptionsAt(data, pos, acc) == OptionsAt(data, next, acc + [options[0]])
    ensures acc + [options[0]] + options[1..] == acc + options
  {
    var o, rest := options[0], options[1..];
    next := pos + |OptionWire(o)|;
    AtSplit(data, pos, OptionWire(o), OptionsWire(rest));
    OptionStep(data, pos, o);
    OptionsAtStep(data, pos, acc, o, next);
    assert options == [o] + rest;
    Regroup(acc, [o], rest);
  }

  /** Reading options goes on after the first one. */
  lemma OptionsAtStep(data: Octets, pos: nat, acc: seq<EdnsOption>, o: EdnsOption, next: nat)
    requires pos < |data| && OptionAt(data, pos) == Moved(o, next)
    ensures OptionsAt(data, pos, acc) == OptionsAt(data, next, acc + [o])
  {
  }

  lemma Regroup<T>(a: seq<T>, b: seq<T>, c: seq<T>)
    ensures a + b + c == a + (b + c)
  {
  }

  /** Decoding what `Encode` wrote does not give the options back: the UDP payload
      size is read as the first option's code, and the extended RCODE and version
      as its length. */
  lemma DecodeOfEncode(p: Payload)
    requires p.EDNS?
    ensures var o := OptionsAt(EDNSWire(p), 0, []).value;
      |o| >= 1 && o[0].code == p.udpSize && |o[0].data| == U16Of(p.extRCode, p.version) as int
  {
    var w := EDNSWire(p);
    assert w[0] == U16Wire(p.udpSize)[0] && w[1] == U16Wire(p.udpSize)[1];
    assert w[2] == p.extRCode && w[3] == p.version;
    U16RoundTrip(p.udpSize);
    var o := OptionsAt(w, 0, []).value;
    var first := OptionAt(w, 0);
    assert [] + [first.value] == [first.value];
    assert OptionsAt(w, 0, []) == OptionsAt(w, first.next, [first.value]);
    assert first.value == o[0];
  }

  /** In particular a payload with no options comes back with at least one. */
  lemma EmptyOptionsNotRestored(p: Payload)
    requires p.EDNS? && p.options == []
    ensures OptionsAt(EDNSWire(p), 0, []).value != p.options
  {
    DecodeOfEncode(p);
  }
}
