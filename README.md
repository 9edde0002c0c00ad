# DNS wire codec of dns-go, in Dafny

This project models the DNS message codec of `dns-go` and proves properties of it.
The codec turns a DNS message (RFC 1035, with the EDNS OPT record of RFC 6891)
into its byte form and back. The repository carries two revisions of it, and
both are modelled:

- `Current`: the `packet/` package;
- `Legacy`: the older `dns/` package.

The two share the header, question, name and message layers. Their record
layers differ:

- Only the current revision decodes EDNS (type 0x29).
- In the older revision, `Bytes()` of SOA, SRV and CNAME records falls back to
  the base `Bytes`. That calls the base `Encode`, which panics, and the model
  shows this as `Failure(Panic)`.

Every decoder of the Go code works on a shared `bytes.Reader`. Each one is
modelled twice:

- a function of the input and the cursor, giving the value (or error) and the
  new cursor;
- a method over the class `Wire.ByteReader`, proved equal to that function.

Encoders are written the same way: a function giving the bytes, and a method
over `Wire.Buffer` proved to write them. The round-trip lemmas are stated about
the functions.

Modules, one file each:

- `Wire` (wire.dfy): bytes and 16/32-bit big-endian integers; the reader
  (`Read`, `ReadByte`, `binary.Read`, `Seek`); the output buffer.
- `Names` (names.dfy): `encodeDomainName` and `decodeDomainName` with
  compression pointers.
- `Headers` (header.dfy): the 12-byte header and its packed flags.
- `Questions` (question.dfy): the question entry.
- `Addresses` (ip.dfy): the text form of IP addresses.
- `Records` (records.dfy): A, AAAA, TXT, NS and CNAME payloads.
- `Edns` (edns.dfy): the OPT pseudo-record.
- `Soa` (soa.dfy) and `Srv` (srv.dfy): the SOA and SRV payloads.
- `Resources` (resource.dfy): the record prefix, type dispatch, RDLENGTH,
  `WrapData` and `Bytes`.
- `Packets` (packet.dfy): `FromBytes`, `Bytes`, the `DNSPacket` object and its
  builders.
- `Mnemonics` (mnemonics.dfy): the `String` names of classes and opcodes.

Integers are modelled as the source defines them:

- `Byte`, `U16` and `U32` are bounded integer types.
- Go's conversions to `uint16` are written out as truncation, with `Len16`
  taking a length modulo 2^16.
- The header's flag fields are `bv8`, so that the shifts and masks of the Go
  code keep their 8-bit semantics.
- A domain name is the byte string the Go code holds, with dots as separators.

Two behaviours of the code are worth knowing before reading the model.

- Bytes after the last counted record are not ignored in general: the EDNS
  decoder reads options to the end of the input, whatever RDLENGTH says. They
  are ignored for messages whose records reparse (`Packets.MessageRoundTrip`);
  that excludes every message carrying an EDNS record and every owner name
  without a trailing dot.
- Encoding and decoding are not inverse for EDNS (`Edns.DecodeOfEncode`) or for
  owner names: `WrapData` writes the name without a forced terminator, so only
  names ending in a dot come back, and they come back without the dot
  (`Packets.Reparsed`).

## Model

| member | source | states |
|---|---|---|
| Wire.U16RoundTrip | packet/packet_header.go:82-93 | reading back the two big-endian bytes written for a 16-bit value gives the value |
| Wire.U16Converse | packet/packet_header.go:99-105 | writing the value read from two bytes gives those two bytes back |
| Wire.U32RoundTrip | packet/packet_resource.go:149-151 | reading back the four big-endian bytes written for a TTL gives the TTL |
| Wire.Zeros | packet/packet_resource_a.go:16 | a fresh slice of length n has n bytes, all zero |
| Wire.ByteAt | packet/packet_header.go:63-66 | reading one byte succeeds exactly when a byte is left; it then yields that byte and advances by one, otherwise it leaves the cursor |
| Wire.FullAt | packet/packet_question.go:99-102 | a full read of n bytes succeeds exactly when n bytes remain and yields them; otherwise the cursor ends at the end of the input |
| Wire.U16At | packet/packet_header.go:59-61 | `binary.Read` of a uint16 succeeds exactly when two bytes remain, yields their big-endian value and advances by two; a short read ends at the end of the input |
| Wire.U32At | packet/packet_resource.go:149-151 | the same for a uint32: four bytes, big-endian |
| Wire.ReadAt | packet/packet_question.go:26-36 | `reader.Read` into an n-byte slice yields exactly n bytes: what is left, up to n, then zeros; it reports EOF exactly when nothing is left |
| Wire.U16AtWire | packet/packet_header.go:82-93 | a 16-bit value written at a position is read back there, and the cursor moves past it |
| Wire.U32AtWire | packet/packet_resource.go:149-151 | a 32-bit value written at a position is read back there, and the cursor moves past it |
| Wire.ByteReader.constructor | packet/packet.go:37 | `bytes.NewReader(data)`: a reader over the data, at offset 0 |
| Wire.ByteReader.Len | packet/packet_resource_edns.go:30 | `reader.Len()` is the number of unread bytes |
| Wire.ByteReader.ReadByte | packet/packet_header.go:63-66 | agrees with `ByteAt`: the next byte, or Truncated with the cursor unchanged |
| Wire.ByteReader.ReadFull | packet/packet_question.go:99-102 | agrees with `FullAt` |
| Wire.ByteReader.ReadU16 | packet/packet_header.go:59-61 | agrees with `U16At`: the big-endian value of the next two bytes, or Truncated with the cursor at the end |
| Wire.ByteReader.ReadU32 | packet/packet_resource.go:149-151 | agrees with `U32At` |
| Wire.ByteReader.Read | packet/packet_question.go:26-36 | agrees with `ReadAt` |
| Wire.ByteReader.Seek | packet/packet_question.go:104-114 | moves the cursor to the given offset and keeps the data |
| Wire.Buffer.constructor | packet/packet_resource.go:204 | an empty `bytes.Buffer` |
| Wire.Buffer.WriteByte | packet/packet_question.go:58-64 | appends one byte and changes nothing else |
| Wire.Buffer.Write | packet/packet_resource.go:218 | appends the bytes and changes nothing else |
| Wire.Buffer.WriteU16 | packet/packet_resource.go:208-210 | appends the two big-endian bytes of the value |
| Wire.Buffer.WriteU32 | packet/packet_resource.go:212 | appends the four big-endian bytes of the value |
| Wire.ValueOfBits | packet/packet_header.go:63-71 | turning a byte into 8 bits and back gives the byte |
| Wire.BitsOfValue | packet/packet_header.go:100-101 | turning 8 bits into a byte and back gives the bits |
| Names.Split | packet/packet_question.go:56 | `strings.Split(domain, ".")` yields at least one part |
| Names.JoinSplit | packet/packet_question.go:94 | joining the parts of a split with dots gives the original name back |
| Names.SplitDotFree | packet/packet_question.go:56 | no part of a split contains a dot |
| Names.SplitTrailingDot | packet/packet_question.go:56-63 | a name with a trailing dot splits into the parts of the name without it, plus one empty part |
| Names.LabelsWireAppend | packet/packet_question.go:57-61 | encoding one more label extends the output by that label's length byte and bytes |
| Names.LabelsWireLength | packet/packet_question.go:57-61 | every label costs at least its length byte |
| Names.EncodeDomainName | packet/packet_question.go:55-66 | writes each part as a length byte then its bytes, then the zero byte when asked for a terminator; nothing else is written |
| Names.TrailingDotTerminates | packet/packet_question.go:55-66 | a name ending in a dot, written without a forced terminator, gives the same bytes as the name without the dot written with one |
| Names.EmptyNameWire | packet/packet_question.go:55-66 | the empty name is written as two zero bytes with the terminator and one without |
| Names.IsPointerMask | packet/packet_question.go:79 | a length byte is a compression pointer exactly when its top two bits are set |
| Names.PointerTarget | packet/packet_question.go:103 | a pointer's offset is below 0x4000 |
| Names.PointerTargetFormula | packet/packet_question.go:103 | the offset is `(first - 0xC0) * 256 + second` |
| Names.ChainAt | packet/packet_question.go:69-92 | the label loop never moves the cursor backwards, and a label chain read without error consumes at least one byte |
| Names.NameAt | packet/packet_question.go:68-96 | `decodeDomainName` (with the backward-pointer guard of the corrected decoder, see Findings) never moves the cursor backwards |
| Names.PointerAt | packet/packet_question.go:98-116 | `readPointer` never moves the cursor backwards and resumes after the two pointer bytes |
| Names.DecodeDomainName | packet/packet_question.go:68-96 | the reader-level decoder agrees with `NameAt` in the name or error and in the final cursor |
| Names.ReadPointer | packet/packet_question.go:98-116 | the reader-level pointer step agrees with `PointerAt`, including the restored cursor after the seek |
| Names.ChainRoundTrip | packet/packet_question.go:57-63 | labels of 1 to 63 bytes written with the zero byte are read back in order by the label loop, and the cursor lands just past the zero |
| Names.NameRoundTrip | packet/packet_question.go:55-96 | a name whose labels have 1 to 63 bytes, written with its terminator, decodes to itself and the cursor lands just past it |
| Names.NameViaPointer | packet/packet_question.go:79-86 | a name that starts with a pointer is whatever the pointer step yields, and the cursor moves past the two pointer bytes |
| Names.PointerToEarlierName | packet/packet_question.go:98-116 | a pointer to a name written earlier in the message decodes to that name and consumes exactly two bytes |
| Names.SelfPointerNeverReturns | packet/packet_question.go:98-116 | as written, the decoder never returns on C0 00: every amount of fuel runs out |
| Names.SelfPointerRejected | packet/packet_question.go:98-116 | the corrected decoder rejects C0 00 with BadPointer |
| Names.GuardedAgrees | dns/packet_resource.go:144-192 | wherever the corrected decoder yields a name, the decoder as written yields the same name and cursor |
| Names.UnguardedNameAt | packet/packet_question.go:68-116 | the decoder as written, following every pointer; when it yields a name, it has consumed at least one byte and stayed within the input |
| Names.ChainLoopNeverReturns | packet/packet_question.go:98-116 | as written, the decoder never returns on 01 61 C0 00, whose pointer leads strictly backwards, to the start of its own chain |
| Names.ChainLoopRejected | packet/packet_question.go:98-116 | the corrected decoder rejects 01 61 C0 00 with BadPointer |
| Names.ForwardPointerRejected | packet/packet_question.go:98-116 | on the forward pointer C0 02 01 61 00 the decoder as written returns "a", while the corrected decoder fails with BadPointer |
| Headers.NewHeader | packet/packet_header.go:46-56 | a new header is a query with the given ID; every other flag (opcode, AA, TC, RD, RA, Z, RCODE) and every count is zero |
| Headers.Bytes | packet/packet_header.go:97-107 | the header is always exactly 12 bytes |
| Headers.BytesLayout | packet/packet_header.go:99-105 | ID and the four counts sit big-endian in bytes 0-1, 4-5, 6-7, 8-9 and 10-11 |
| Headers.BytesFlags | packet/packet_header.go:100-101 | bytes 2 and 3 are the two packed flag bytes |
| Headers.HeaderAt | packet/packet_header.go:58-95 | parsing succeeds exactly when 12 bytes remain and then consumes exactly 12; a failure leaves the cursor at the end of the input |
| Headers.Parse | dns/packet_header.go:58-95 | the field-by-field reads succeed exactly when 12 bytes remain, yield the fields masked out of those 12 bytes, and fail with Truncated at the end of the input otherwise |
| Headers.FromWireAt | packet/packet_header.go:59-93 | the header read from 12 bytes takes each field from its own bits of its own bytes |
| Headers.ParsedFlagsFit | packet/packet_header.go:63-80 | every flag field of a parsed header fits its width, whatever the input |
| Headers.FlagsRoundTrip | packet/packet_header.go:63-80 | unpacking the packed flag bytes gives back every flag that fits its width |
| Headers.HeaderRoundTrip | packet/packet_test.go:9-37 | `Parse(Bytes(h)) == h` for every header whose flags fit their widths |
| Headers.FlagsConverse | packet/packet_header.go:100-101 | packing the flags unpacked from two bytes gives those bytes back |
| Headers.HeaderConverse | packet/packet_header.go:58-107 | `Bytes(Parse(s))` gives back the first 12 bytes of any input: the masks cover all 16 flag bits |
| Headers.HeaderAtBytes | packet/packet.go:41-44 | a header written into a message is read back whole at its position, and the cursor moves 12 bytes |
| Headers.TestHeader | packet/packet_test.go:9-37 | the header of the unit test (ID 123, RD set, one question) survives `Bytes` then `Parse` |
| Questions.QuestionAt | packet/packet_question.go:18-38 | parsing a question succeeds exactly when the name decodes and at least three bytes follow it (the last byte of the class may be missing) |
| Questions.Parse | packet/packet_question.go:18-38 | the reader-level parse agrees with `QuestionAt`, including the partly filled question it leaves on error |
| Questions.Bytes | packet/packet_question.go:40-53 | writes the terminated name, then type and class big-endian |
| Questions.QuestionWireLength | packet/packet_question.go:40-53 | a question is its name's encoding plus four bytes |
| Questions.QuestionRoundTrip | packet/packet_question.go:18-53 | a question with a well-formed name, written at a position, is read back whole there, whatever the question held before, and the cursor lands just past it |
| Questions.ParseBytes | packet/packet_test.go:39-55 | `Parse(Bytes(q)) == q`, the question test, for every well-formed name |
| Questions.FailedParseKeepsName | packet/packet_question.go:20-30 | when the input ends right after the name, `Parse` fails with Truncated but has already replaced the name, keeping the old type and class |
| Questions.OneByteClass | packet/packet_question.go:32-36 | a single byte left for the class is accepted, and the missing low byte reads as zero |
| Questions.TwoLabelNameWire | packet/packet_question.go:55-66 | a name of two labels is written as each label after its length, then the zero byte |
| Questions.ExampleQuestion | packet/packet_test.go:39-55 | the test question "example.com", type 1, class 1, has the byte form of RFC 1035 |
| Addresses.IpString | packet/packet_resource_a.go:18 | four bytes show as a dotted quad; sixteen bytes that are not IPv4-mapped show as colon text; any other length names no address |
| Addresses.ParseIp | packet/packet_resource_a.go:22 | a parsed address is 16 bytes, and text that names no address does not parse |
| Addresses.To4 | packet/packet_resource_a.go:22 | `To4` yields four bytes or none |
| Addresses.To16 | packet/packet_resource_aaaa.go:22 | `To16` yields sixteen bytes or none |
| Addresses.ParseIpString | packet/packet_resource_a.go:18-22 | parsing the text of 4 or 16 bytes gives the 16-byte form: IPv4 behind the IPv4-mapped prefix, IPv6 as is |
| Addresses.V4RoundTrip | packet/packet_resource_a.go:15-23 | four address bytes shown as text and parsed back with `To4` are the same four bytes |
| Addresses.V6RoundTrip | packet/packet_resource_aaaa.go:15-23 | sixteen address bytes shown as text and parsed back with `To16` are the same sixteen bytes |
| Addresses.To4OfText | packet/packet_resource_a.go:21-23 | `To4` yields four bytes exactly for a dotted quad or the colon text of an IPv4-mapped address |
| Addresses.To16OfText | packet/packet_resource_aaaa.go:21-23 | `To16` yields sixteen bytes exactly for a dotted quad or the colon text of sixteen bytes |
| Addresses.Loopback | packet/packet_resource_a.go:21-23 | 127.0.0.1 encodes as 7F 00 00 01 |
| Records.ValueOr | packet/packet_resource_edns.go:32-34 | a read whose error is discarded yields its value, or the zero the field started with |
| Records.AAt | packet/packet_resource_a.go:15-19 | an A payload never moves the cursor backwards |
| Records.AAAAAt | packet/packet_resource_aaaa.go:15-19 | an AAAA payload never moves the cursor backwards |
| Records.DecodeA | packet/packet_resource_a.go:15-19 | the reader-level decoder agrees with `AAt` |
| Records.DecodeAAAA | packet/packet_resource_aaaa.go:15-19 | the reader-level decoder agrees with `AAAAAt` |
| Records.ARoundTrip | packet/packet_resource_a.go:15-23 | four address bytes, decoded with RDLENGTH 4 and encoded again, are the same four bytes, and exactly four are consumed |
| Records.AAAARoundTrip | packet/packet_resource_aaaa.go:15-23 | the same for sixteen bytes and AAAA |
| Records.ATextRoundTrip | packet/packet_resource_a.go:15-23 | an A record whose text is a dotted quad is decoded back to that text from what `Encode` writes |
| Records.AAAATextRoundTrip | packet/packet_resource_aaaa.go:15-23 | an AAAA record whose text is a dotted quad or non-mapped colon text is decoded back to that text from what `Encode` writes |
| Records.AddressWireLength | packet/packet_resource_a.go:21-23 | `Encode` writes 4 (A) or 16 (AAAA) bytes for address text it can parse, and none otherwise |
| Records.TXTAt | packet/packet_resource_txt.go:14-18 | TXT content is always RDLENGTH bytes long, and the cursor moves by RDLENGTH or to the end of the input |
| Records.DecodeTXT | packet/packet_resource_txt.go:14-18 | the reader-level decoder agrees with `TXTAt` |
| Records.TXTWire | packet/packet_resource_txt.go:22-26 | `Encode` writes exactly as many bytes as the content has |
| Records.TXTRoundTrip | packet/packet_resource_txt.go:14-26 | content below 64 KiB, decoded with the RDLENGTH `Bytes` writes, comes back unchanged, and exactly that many bytes are consumed |
| Records.NameOrEmpty | packet/packet_resource_ns.go:15 | a name whose decoding fails is taken as empty, its error discarded |
| Records.NSAt | packet/packet_resource_ns.go:14-16 | an NS payload never moves the cursor backwards |
| Records.CNAMEAt | dns/packet_resource_cname.go:12-14 | a CNAME payload never moves the cursor backwards |
| Records.DecodeNS | packet/packet_resource_ns.go:14-16 | the reader-level decoder agrees with `NSAt` |
| Records.DecodeCNAME | dns/packet_resource_cname.go:12-14 | the reader-level decoder agrees with `CNAMEAt` |
| Records.EncodeName | packet/packet_resource_ns.go:20-24 | NS and CNAME `Encode` write the name with its terminator |
| Records.NSRoundTrip | packet/packet_resource_ns.go:14-24 | a well-formed name server name is decoded back from what `Encode` writes, whatever RDLENGTH says |
| Records.CNAMERoundTrip | dns/packet_resource_cname.go:12-22 | the same for a CNAME's domain |
| Records.NSSwallowsError | packet/packet_resource_ns.go:15 | a name server name that fails to decode becomes the empty name, and no error is reported |
| Records.CNAMESwallowsError | dns/packet_resource_cname.go:13 | the same for a CNAME |
| Edns.OptionAt | packet/packet_resource_edns.go:31-37 | every option read consumes at least one byte, so the option loop ends |
| Edns.OptionsAt | packet/packet_resource_edns.go:30-38 | the option loop reads to the very end of the input, keeping the options read before |
| Edns.EDNSAt | packet/packet_resource_edns.go:24-39 | the UDP size is the record's CLASS; extended RCODE, version and flags put back together give the TTL; the cursor ends at the end of the input |
| Edns.DecodeEDNS | packet/packet_resource_edns.go:24-39 | the reader-level loop agrees with `EDNSAt` |
| Edns.EncodeEDNS | packet/packet_resource_edns.go:42-57 | writes UDP size, extended RCODE, version, flags, then every option |
| Edns.WriteOptions | packet/packet_resource_edns.go:50-54 | the option loop writes code, 16-bit length and data of each option, in order |
| Edns.OptionsWireSnoc | packet/packet_resource_edns.go:50-54 | writing one more option extends the output by that option |
| Edns.OptionsWireLength | packet/packet_resource_edns.go:50-54 | every option takes four bytes plus its data, whatever its length: the truncated length field is still two bytes |
| Edns.EDNSWireLength | packet/packet_resource_edns.go:42-57 | the encoded payload is six bytes plus the options |
| Edns.OptionStep | packet/packet_resource_edns.go:31-37 | one option written at a position is read back as that option, and reading continues just past it |
| Edns.OptionsRoundTrip | packet/packet_resource_edns.go:30-38 | options written at the end of the input are read back in order after those already read |
| Edns.FirstOption | packet/packet_resource_edns.go:30-38 | reading written options yields the first, then continues with the rest right after it |
| Edns.DecodeOfEncode | packet/packet_resource_edns.go:24-57 | decoding what `Encode` writes reads the UDP size as the first option's code, and extended RCODE and version as its length |
| Edns.EmptyOptionsNotRestored | packet/packet_resource_edns.go:24-57 | a payload with no options comes back with at least one |
| Soa.SOAAt | dns/packet_resource_soa.go:43-51 | an SOA payload never moves the cursor backwards |
| Soa.DecodeSOA | dns/packet_resource_soa.go:43-51 | the reader-level decoder agrees with `SOAAt` |
| Soa.EncodeSOA | dns/packet_resource_soa.go:53-68 | writes both terminated names, then the five 32-bit fields big-endian |
| Soa.SOAWireLength | dns/packet_resource_soa.go:53-68 | an SOA payload is its two names plus 20 bytes |
| Soa.SOARoundTrip | dns/packet_resource_soa.go:43-68 | an SOA payload with well-formed names is decoded back whole from what `Encode` writes, and exactly that is consumed |
| Soa.SOAAtEnd | dns/packet_resource_soa.go:43-51 | at the end of the input every field keeps its zero value and no error is reported |
| Srv.SRVAt | dns/packet_resource_srv.go:18-23 | an SRV payload never moves the cursor backwards |
| Srv.DecodeSRV | dns/packet_resource_srv.go:18-23 | the reader-level decoder agrees with `SRVAt` |
| Srv.EncodeSRV | dns/packet_resource_srv.go:27-34 | writes priority, weight, port big-endian, then the terminated target |
| Srv.SRVWireLength | dns/packet_resource_srv.go:27-34 | an SRV payload is six bytes plus its target |
| Srv.SRVRoundTrip | dns/packet_resource_srv.go:18-34 | an SRV payload with a well-formed target is decoded back whole from what `Encode` writes |
| Srv.SRVAtEnd | dns/packet_resource_srv.go:18-23 | with fewer than two bytes left every field stays zero and the cursor ends at the end of the input |
| Resources.PrefixAt | packet/packet_resource.go:139-151 | the prefix parses exactly when the name decodes and eight bytes follow it, and then it consumes exactly those eight |
| Resources.PayloadAt | packet/packet_resource.go:152-199 | the payload decoded for a dispatched type is of that type |
| Resources.ResourceAt | packet/packet_resource.go:138-201 | a record parses exactly when the prefix parses, its type is dispatched by the revision and RDLENGTH is there; the record keeps the prefix and has a payload of its type; an unknown type fails with UnknownType right after the prefix |
| Resources.RecordAfter | dns/packet_resource.go:64-107 | the part after the prefix: success exactly for a dispatched type with RDLENGTH present; unknown types fail without reading on |
| Resources.ParsePrefix | packet/packet_resource.go:139-151 | the reader-level prefix parse agrees with `PrefixAt` |
| Resources.DecodePayload | packet/packet_resource.go:152-199 | the reader-level dispatch agrees with `PayloadAt` |
| Resources.ParseResource | packet/packet_resource.go:138-201 | the reader-level parse agrees with `ResourceAt`, in both revisions |
| Resources.ParsedType | packet/packet_resource.go:134-136 | `GetType` of a parsed record is the big-endian type code right after its name |
| Resources.Encode | packet/packet_resource.go:100-105 | each variant's `Encode` writes the payload form of its own type |
| Resources.WrapData | packet/packet_resource.go:203-220 | writes the unterminated owner name, type, class, TTL, RDLENGTH and the data |
| Resources.RecordBytes | dns/packet_resource.go:111-130 | `Bytes` succeeds exactly for the records the revision can write, and panics otherwise |
| Resources.Bytes | packet/packet_resource.go:203-220 | the reader-level `Bytes` agrees with `RecordBytes` |
| Resources.WrapLayout | packet/packet_resource.go:203-220 | after the name come type, class and TTL big-endian, then RDLENGTH equal to the data length modulo 2^16, then the data |
| Resources.AddressRdLength | packet/packet_resource_a.go:25-27 | for A and AAAA records RDLENGTH equals the bytes written: 4 or 16 for parseable text, 0 otherwise |
| Resources.EDNSBytesUsePrefix | packet/packet_resource_edns.go:59-61 | an EDNS record is written with the prefix's class and TTL, and the RDATA is its `Encode` |
| Resources.PrefixRoundTrip | packet/packet_resource.go:139-151 | an owner name ending in a dot, written by `WrapData`, reads back without the dot, with the same type, class and TTL |
| Resources.UnterminatedNameShifts | packet/packet_resource.go:206 | an owner name without a trailing dot has no terminator on the wire, so the type is read from the type's low byte and the class's high byte |
| Resources.ShiftedName | packet/packet_resource.go:206 | an unterminated name followed by a zero byte reads as that name, ending one byte further on |
| Resources.PayloadRoundTrip | packet/packet_resource.go:152-199 | each payload that round-trips, written by `Encode`, is decoded back by the decoder of its type with the RDLENGTH `Bytes` writes; both revisions dispatch that type |
| Resources.RecordRoundTrip | packet/packet_resource.go:138-220 | a record written by `Bytes` is read back by `ParseResource`, in either revision, with the owner name's trailing dot gone |
| Resources.WrappedRoundTrip | packet/packet_resource.go:138-220 | the same for `WrapData(Encode())` of the record |
| Resources.FrameRoundTrip | packet/packet_resource.go:190-193 | after a written prefix, RDLENGTH reads back as the data length and the data follows |
| Packets.QuestionsAt | packet/packet.go:46-52 | a successful question loop yields exactly the counted number of questions after those already read, never moving the cursor backwards |
| Packets.RecordsAt | packet/packet.go:54-76 | a successful record loop yields exactly the counted number of records after those already read |
| Packets.MessageAt | packet/packet.go:36-79 | input below 12 bytes fails with Truncated; a decoded message has the header of the first 12 bytes and exactly as many entries in each section as its counts say |
| Packets.ParseHeader | packet/packet.go:41-44 | agrees with `HeaderAt` |
| Packets.ParseQuestions | packet/packet.go:46-52 | the question loop agrees with `QuestionsAt` |
| Packets.ParseNextQuestion | packet/packet.go:47-51 | one turn of the loop: a failed question ends the loop with its error, a parsed one joins the questions read |
| Packets.ParseRecords | dns/packet.go:145-168 | each record loop agrees with `RecordsAt` |
| Packets.ParseNext | packet/packet.go:55-59 | one turn of a record loop: a failed record ends the loop with its error, a parsed one joins the records read |
| Packets.MessageBytes | packet/packet.go:81-97 | `Bytes` succeeds exactly when every record can be written (always, in the current revision), and the output starts with the 12-byte header as stored |
| Packets.ConcatSnoc | packet/packet.go:85-95 | writing one more entry extends the output by that entry's bytes |
| Packets.WriteQuestions | packet/packet.go:84-86 | the question loop writes each question's bytes, in order |
| Packets.WriteQuestion | packet/packet.go:86 | one question is appended after the ones written before |
| Packets.WriteRecords | dns/packet.go:178-186 | a record loop reports success exactly when every record can be written, and then has written them all in order |
| Packets.WriteRecord | dns/packet.go:179 | one record is appended exactly when its `Bytes` succeeds |
| Packets.Packet.constructor | packet/packet.go:29-33 | `NewPacket()`: a new query header, all sections empty |
| Packets.Packet.FromBytes | packet/packet.go:36-79 | yields a fresh packet holding the decoded message exactly when decoding succeeds, and no packet with the error otherwise |
| Packets.Packet.Bytes | packet/packet.go:81-97 | agrees with `MessageBytes` of the packet's value |
| Packets.Packet.AddQuestion | packet/packet.go:99-102 | appends the question and sets QDCOUNT to the new number of questions truncated to 16 bits; nothing else changes |
| Packets.Packet.AddAnswer | packet/packet.go:104-106 | appends the answer and leaves the header, ANCOUNT included, unchanged |
| Packets.Packet.AddAuthority | packet/packet.go:108-110 | appends the authority record; the header is unchanged |
| Packets.Packet.AddAdditional | packet/packet.go:112-114 | appends the additional record; the header is unchanged |
| Packets.Packet.AddQuestionA | packet/packet.go:116-122 | adds a question for the domain with type A and class IN |
| Packets.Packet.AddQuestionAAAA | packet/packet.go:124-130 | adds a question with type AAAA and class IN |
| Packets.Packet.AddQuestionCNAME | packet/packet.go:132-138 | adds a question with type CNAME and class IN |
| Packets.Packet.AddQuestionMX | packet/packet.go:140-146 | adds a question with type MX and class IN |
| Packets.Packet.AddQuestionNS | packet/packet.go:148-154 | adds a question with type NS and class IN |
| Packets.Packet.AddQuestionTXT | packet/packet.go:156-162 | adds a question with type TXT and class IN |
| Packets.Packet.AddQuestionSOA | packet/packet.go:164-170 | adds a question with type SOA and class IN |
| Packets.Packet.AddQuestionPTR | packet/packet.go:172-178 | adds a question with type PTR and class IN |
| Packets.Packet.AddQuestionSRV | packet/packet.go:180-186 | adds a question with type SRV and class IN |
| Packets.QuestionsAtNext | packet/packet.go:47-51 | a question read without error is one turn of the question loop |
| Packets.RecordsAtNext | packet/packet.go:55-59 | a record read without error is one turn of a record loop |
| Packets.QuestionsRoundTrip | packet/packet.go:46-52 | questions written one after another are read back in order by the question loop, and the cursor lands just past them |
| Packets.FirstQuestion | packet/packet.go:46-52 | written questions read as the first, then the rest right after it |
| Packets.QuestionsStep | packet/packet.go:47-51 | a question written at the cursor is one turn of the question loop |
| Packets.RecordsRoundTrip | packet/packet.go:54-60 | records written one after another are read back in order, each without its owner name's trailing dot, and the cursor lands just past them |
| Packets.FirstRecord | packet/packet.go:54-60 | written records read as the first, then the rest right after it |
| Packets.RecordStep | packet/packet.go:55-59 | a record written at the cursor is read back without its owner name's trailing dot |
| Packets.MessageAtParts | packet/packet.go:36-79 | a message whose header, questions and three record sections are each read back in turn is what `FromBytes` yields |
| Packets.SectionsRoundTrip | packet/packet.go:54-76 | the three record sections written one after another are read back by the three record loops |
| Packets.MessageLayout | packet/packet.go:81-97 | in written bytes the header sits at 0 and the questions and the three sections follow it in order |
| Packets.MessageSections | packet/packet.go:36-97 | each part of a written message is read back in turn, each ending where the next begins |
| Packets.MessageRoundTrip | packet/packet.go:36-97 | `FromBytes(Bytes())` gives the message back, in either revision, with owner names without their trailing dot, whatever follows it in the input |
| Packets.NoCountsReadNothing | examples/server.go:8-31 | a response whose counts are all zero, as the example server builds it, reads back with no questions and no records |
| Packets.RecordsWithoutCounts | packet/packet.go:104-114 | records added without updating their counts are not read back; the counted questions are |
| Packets.AddQuestionsCounted | packet/packet.go:99-102 | adding questions keeps every count equal to its section size while there are fewer than 2^16, and changes nothing but the questions and QDCOUNT |
| Packets.QueryRoundTrip | examples/client.go:30-35 | a query built by `NewPacket()` and `AddQuestion` calls reads back exactly as built |
| Mnemonics.ClassName | packet/packet_resource.go:54-69 | the name is "Unknown" exactly for classes without a name of their own, and "IN" exactly for class 1 |
| Mnemonics.OpCodeName | packet/packet_resource.go:83-98 | the name is "Unknown" exactly for unassigned opcodes, and "Query" exactly for opcode 0 |
| Mnemonics.ClassNamesDistinct | dns/packet.go:53-68 | distinct known classes have distinct names |
| Mnemonics.OpCodeNamesDistinct | dns/packet.go:82-97 | distinct known opcodes have distinct names |

## Left out

- Networking, the UDP and HTTPS clients and servers, and the command-line entry
  point: they only move the bytes this codec produces.
- The random message ID of `NewHeader` is a parameter, because randomness is not
  modelled.
- `net.IP(data).String()` and `net.ParseIP(text)` belong to Go's standard library. The
  `Addresses` module keeps the address text abstract (dotted quad, colon text, or
  no address) and models only the case split those functions make.
- Addresses.IpString: does not fix the characters of the text, only which form
  it takes.
- Error values are modelled by kind (Truncated, BadPointer, UnknownType, Panic),
  not by their message text.
- The panic of the older revision's base `Encode` is modelled as a `Failure(Panic)`
  result, not as an unwinding of the program.
- Names.NameAt: models the decoder with a guard that only follows a pointer whose
  target lies before the start of the chain containing it. As written, the Go
  code follows any pointer and can recurse forever. Forward pointers and pointers
  into the current chain, which the Go code may decode, fail here with
  BadPointer (`Names.ForwardPointerRejected`). The decoder as written is
  `Names.UnguardedNameAt`, with a fuel bound standing in for the stack; see
  Findings.
- Resources.RecordBytes: in the current revision only A, AAAA, TXT and EDNS
  define `Bytes` as `WrapData(Encode())`. NS has no `Bytes` of its own, and the
  current revision's SOA, SRV and CNAME files are not part of this model. For
  these four, `WrapData(Encode())` is assumed, and `Resources.RecordRoundTrip`
  and `Packets.MessageRoundTrip` rely on that assumption.
- The current revision's files for SOA, SRV, CNAME, MX and PTR payloads are not
  part of this model. Its `ParseResource` dispatches SOA, SRV and CNAME, so the
  older revision's payload codecs are used for them. MX and PTR are dispatched by
  neither revision and fail as unknown types.
- The older revision's files for the A, AAAA, NS and TXT payloads are not part of
  this model. The current revision's codecs for them are used in both
  revisions.
- Records.EncodeName: the current NS `Encode` calls `encodeDomainName` with one
  argument too few. The model takes the terminated form, which is what the older
  revision's two-argument function writes.
- Edns.DecodeEDNS: there is no payload round trip, because `Encode` and `Decode`
  are not inverse (see `Edns.DecodeOfEncode`).
- Packets.MessageRoundTrip: holds only for messages whose flags fit their widths
  and whose records reparse. In general, bytes after the last record are not
  ignored: EDNS reads to the end of the input, and TXT, A and AAAA zero-fill a
  short read.
- DNS type constants that no code path dispatches on (MD, MF, MB, MG, MR, NULL,
  WKS, HINFO, MINFO, SPF, AXFR, MAILB, MAILA, ANY) are left out.
- Concurrency and aliasing of `*DNSPacket` pointers are left out: the builders
  modify one packet object at a time.

## Findings

| source | as written | input that shows it | evidently intended | confidence | as-written member | corrected member |
|---|---|---|---|---|---|---|
| packet/packet_question.go:98-116 | `readPointer` seeks to any 14-bit offset and calls `decodeDomainName` again, with no check that the offset lies before the pointer; the same code is at dns/packet_resource.go:174-192 | the two bytes C0 00 at offset 0: a pointer to itself, so the decoder recurses until the stack overflows; likewise 01 61 C0 00, whose pointer leads back to the start of its own chain | a compression pointer refers to a prior occurrence of the name (section 4.1.4 of RFC 1035): every pointer targets an offset before the start of the chain that contains it, and anything else is an error | not executed | Names.SelfPointerNeverReturns | Names.SelfPointerRejected |
