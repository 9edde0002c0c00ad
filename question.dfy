/**
  The question entry (section 4.1.2 of RFC 1035): a domain name, then QTYPE and
  QCLASS, each two bytes big-endian. Both revisions of the codec read and write
  questions the same way; the name is always written with its terminating zero.
 */
module Questions {
  import opened Wire
  import opened Names

  /** `DNSQuestion`. */
  datatype Question = Question(name: Octets, qtype: U16, qclass: U16)

  /** The state a field-by-field parse leaves behind: the value as far as it got,
      the error that stopped it (if any) and the reader's cursor. */
  datatype Outcome<+T> = Outcome(value: T, error: Option<Error>, next: nat)

  /** `DNSQuestion.Parse` at cursor `pos` on a question that held `q` before. The
      name is assigned as soon as it is decoded; type and class are each read with
      `reader.Read` into a two-byte slice, which fails only when no byte at all is
      left and otherwise zero-fills what is missing. */
  function QuestionAt(data: Octets, pos: nat, q: Question): (o: Outcome<Question>)
    requires pos <= |data|
    ensures pos <= o.next <= |data|
    ensures var n := NameAt(data, pos);
      o.error.None? <==> n.result.Success? && n.next + 3 <= |data|
  {
    var n := NameAt(data, pos);
    if n.result.Failure? then Outcome(q, Some(n.result.error), n.next)
    else
      var named := q.(name := n.result.value);
      var t := ReadAt(data, n.next, 2);
      if t.eof then Outcome(named, Some(Truncated), t.next)
      else
        var typed := named.(qtype := U16Of(t.bytes[0], t.bytes[1]));
        var c := ReadAt(data, t.next, 2);
        if c.eof then Outcome(typed, Some(Truncated), c.next)
        else Outcome(typed.(qclass := U16Of(c.bytes[0], c.bytes[1])), None, c.next)
  }

  /** `q.Parse(reader)`: returns the question as the Go method leaves `*q`, and the
      error it returns. */
  method Parse(r: ByteReader, q: Question) returns (updated: Question, err: Option<Error>)
    requires r.Valid()
    modifies r
    ensures r.Valid() && Outcome(updated, err, r.pos) == QuestionAt(r.data, old(r.pos), q)
  {
    updated := q;
    var name := DecodeDomainName(r);
    if name.Failure? {
      return updated, Some(name.error);
    }
    updated := updated.(name := name.value);
    var typeBytes, eof := r.Read(2);
    if eof {
      return updated, Some(Truncated);
    }
    updated := updated.(qtype := U16Of(typeBytes[0], typeBytes[1]));
    var classBytes, eof2 := r.Read(2);
    if eof2 {
      return updated, Some(Truncated);
    }
    updated := updated.(qclass := U16Of(classBytes[0], classBytes[1]));
    err := None;
  }

  /** The wire form `DNSQuestion.Bytes` writes. */
  function QuestionWire(q: Question): Octets
  {
    NameWire(q.name, true) + U16Wire(q.qtype) + U16Wire(q.qclass)
  }

  /** `DNSQuestion.Bytes`. */
  method Bytes(q: Question) returns (b: Octets)
    ensures b == QuestionWire(q)
  {
    var buf := new Buffer();
    EncodeDomainName(buf, q.name, true);
    assert buf.bytes == NameWire(q.name, true);
    buf.WriteU16(q.qtype);
    buf.WriteU16(q.qclass);
    b := buf.bytes;
  }

  /** A question is the name's encoding plus four bytes. */
  lemma QuestionWireLength(q: Question)
    ensures |QuestionWire(q)| == |NameWire(q.name, true)| + 4
  {
  }

  /** A question written at `pos` is read back whole, whatever the question held
      before, and the cursor lands just past it. */
  lemma QuestionRoundTrip(data: Octets, pos: nat, q: Question, before: Question)
    requires WellFormed(q.name) && At(data, pos, QuestionWire(q))
    ensures QuestionAt(data, pos, before) == Outcome(q, None, pos + |QuestionWire(q)|)
  {
    var nw := NameWire(q.name, true);
    AtSplit(data, pos, nw + U16Wire(q.qtype), U16Wire(q.qclass));
    AtSplit(data, pos, nw, U16Wire(q.qtype));
    NameRoundTrip(data, pos, q.name);
    var p := pos + |nw|;
    U16RoundTrip(q.qtype);
    U16RoundTrip(q.qclass);
    AtSlice(data, p, U16Wire(q.qtype));
    AtSlice(data, p + 2, U16Wire(q.qclass));
    assert ReadAt(data, p, 2).bytes == data[p..p + 2] == U16Wire(q.qtype);
    assert ReadAt(data, p + 2, 2).bytes == data[p + 2..p + 4] == U16Wire(q.qclass);
  }

  /** `Parse(Bytes(q)) == q`, the question test of the Go code, for every question
      whose name has labels of 1 to 63 bytes. */
  lemma ParseBytes(q: Question, before: Question)
    requires WellFormed(q.name)
    ensures QuestionAt(QuestionWire(q), 0, before) == Outcome(q, None, |QuestionWire(q)|)
  {
    AtWhole(QuestionWire(q));
    QuestionRoundTrip(QuestionWire(q), 0, q, before);
  }

  /** When the input ends right after the name, `Parse` fails but has already
      replaced the name: the type and class keep their old values. */
  lemma FailedParseKeepsName(data: Octets, pos: nat, q: Question)
    requires pos <= |data|
    requires NameAt(data, pos).result.Success? && NameAt(data, pos).next == |data|
    ensures QuestionAt(data, pos, q)
      == Outcome(q.(name := NameAt(data, pos).result.value), Some(Truncated), |data|)
  {
  }

  /** One byte left for the class is enough: the missing low byte reads as zero. */
  lemma OneByteClass(data: Octets, pos: nat, q: Question)
    requires pos <= |data|
    requires NameAt(data, pos).result.Success? && NameAt(data, pos).next + 3 == |data|
    ensures var n := NameAt(data, pos).next;
      QuestionAt(data, pos, q).value.qclass == U16Of(data[n + 2], 0)
  {
  }

  /** A name of two labels joined by a dot encodes as both labels, length first,
      then the zero byte. */
  lemma TwoLabelNameWire(a: Octets, b: Octets)
    requires Dot !in a && Dot !in b
    ensures NameWire(a + [Dot] + b, true) == [LengthByte(a)] + a + [LengthByte(b)] + b + [0]
  {
    SplitExample(a, b);
    assert [a, b][1..] == [b];
    assert LabelsWire([b]) == LabelWire(b) + LabelsWire([]);
    assert LabelsWire([a, b]) == LabelWire(a) + LabelWire(b);
  }

  /** "example.com", type A (1), class IN (1): 07 'example' 03 'com' 00 00 01 00 01. */
  lemma ExampleQuestion(example: Octets, com: Octets)
    requires example == [0x65, 0x78, 0x61, 0x6D, 0x70, 0x6C, 0x65] && com == [0x63, 0x6F, 0x6D]
    ensures QuestionWire(Question(example + [Dot] + com, 1, 1))
      == [7] + example + [3] + com + [0] + [0, 1] + [0, 1]
  {
    assert Dot !in example && Dot !in com;
    TwoLabelNameWire(example, com);
    U16WireOfByte(1);
  }

  /** Splitting two dot-free pieces joined by one dot gives the two pieces. */
  lemma SplitExample(a: Octets, b: Octets)
    requires Dot !in a && Dot !in b
    ensures Split(a + [Dot] + b) == [a, b]
  {
    SplitDotFreeWhole(b);
    assert ([Dot] + b)[0] == Dot && ([Dot] + b)[1..] == b;
    assert Split([Dot] + b) == [[]] + [b];
    SplitAfterPrefix(a, [Dot] + b);
    assert a + [Dot] + b == a + ([Dot] + b);
    assert a + [] == a;
  }

  /** A dot-free text is one piece. */
  lemma {:induction false} SplitDotFreeWhole(s: Octets)
    requires Dot !in s
    ensures Split(s) == [s]
  {
    if s != [] {
      assert s[0] in s;
      assert Dot !in s[1..] by {
        forall i | 0 <= i < |s[1..]| ensures s[1..][i] != Dot {
          assert s[1..][i] == s[i + 1];
        }
      }
      SplitDotFreeWhole(s[1..]);
      assert [s[0]] + s[1..] == s;
    }
  }

  /** A dot-free prefix joins the first piece of whatever follows it. */
  lemma {:induction false} SplitAfterPrefix(a: Octets, t: Octets)
    requires Dot !in a
    ensures Split(a + t) == [a + Split(t)[0]] + Split(t)[1..]
  {
    if a != [] {
      assert a[0] in a;
      assert Dot !in a[1..] by {
        forall i | 0 <= i < |a[1..]| ensures a[1..][i] != Dot {
          assert a[1..][i] == a[i + 1];
        }
      }
      assert (a + t)[0] == a[0] && (a + t)[1..] == a[1..] + t;
      SplitAfterPrefix(a[1..], t);
      var r := Split(a[1..] + t);
      assert r[0] == a[1..] + Split(t)[0] && r[1..] == Split(t)[1..];
      assert [a[0]] + (a[1..] + Split(t)[0]) == a + Split(t)[0];
    } else {
      assert a + t == t && a + Split(t)[0] == Split(t)[0];
    }
  }
}
