/**
  The whole message (section 4.1 of RFC 1035): the header, then as many questions,
  answers, authority records and additional records as the four header counts say.
  Both revisions share this layer; they differ only in the record codec below it
  (which types `ParseResource` dispatches, and which records `Bytes` can write).
 */
module Packets {
  import opened Wire
  import opened Names
  import Headers
  import Questions
  import opened Records
  import opened Resources
  import Mnemonics

  type Header = Headers.Header
  type Question = Questions.Question

  /** `DNSPacket` as a value: the header and the four sections. */
  datatype Message = Message(
    header: Header,
    questions: seq<Question>,
    answers: seq<Record>,
    authorities: seq<Record>,
    additionals: seq<Record>)

  /** Each section holds exactly as many entries as its header count says. */
  predicate Counted(m: Message)
  {
    m.header.qdCount as int == |m.questions| && m.header.anCount as int == |m.answers|
      && m.header.nsCount as int == |m.authorities| && m.header.arCount as int == |m.additionals|
  }

  // ---------------------------------------------------------------------------
  // Decoding: FromBytes
  // ---------------------------------------------------------------------------

  /** The question loop of `FromBytes`: `n` more questions read from `pos`, each into
      a fresh `DNSQuestion`, after those already in `acc`; the first error ends it. */
  function QuestionsAt(data: Octets, pos: nat, n: nat, acc: seq<Question>): (s: Step<seq<Question>>)
    requires pos <= |data|
    ensures pos <= s.next <= |data|
    ensures s.result.Success? ==> |s.result.value| == |acc| + n && s.result.value[..|acc|] == acc
    decreases n, 2
  {
    if n == 0 then Step(Success(acc), pos) else NextQuestionsAt(data, pos, n, acc)
  }

  /** A turn of the question loop with questions left to read: the next question,
      then the rest after it. */
  function NextQuestionsAt(data: Octets, pos: nat, n: nat, acc: seq<Question>): (s: Step<seq<Question>>)
    requires pos <= |data| && n > 0
    ensures pos <= s.next <= |data|
    ensures s.result.Success? ==> |s.result.value| == |acc| + n && s.result.value[..|acc|] == acc
    decreases n, 1
  {
    ReadQuestionsAt(data, pos, n, acc)
  }

  /** The next question read, then the rest after it. It sits two calls below
      `QuestionsAt` so that unfolding the loop reaches the question decoder only
      where a proof asks for the next question. */
  function ReadQuestionsAt(data: Octets, pos: nat, n: nat, acc: seq<Question>): (s: Step<seq<Question>>)
    requires pos <= |data| && n > 0
    ensures pos <= s.next <= |data|
    ensures s.result.Success? ==> |s.result.value| == |acc| + n && s.result.value[..|acc|] == acc
    decreases n, 0
  {
    var o := Questions.QuestionAt(data, pos, Questions.Question([], 0, 0));
    if o.error.Some? then Step(Failure(o.error.value), o.next)
    else
      var more := QuestionsAt(data, o.next, n - 1, acc + [o.value]);
      assert more.result.Success? ==> more.result.value[..|acc|] == (more.result.value[..|acc| + 1])[..|acc|];
      more
  }

  /** One record loop of `FromBytes`: `n` more records read with `ParseResource`
      from `pos`, after those already in `acc`; the first error ends it. */
  function RecordsAt(rev: Revision, data: Octets, pos: nat, n: nat, acc: seq<Record>): (s: Step<seq<Record>>)
    requires pos <= |data|
    ensures pos <= s.next <= |data|
    ensures s.result.Success? ==> |s.result.value| == |acc| + n && s.result.value[..|acc|] == acc
    decreases n, 2
  {
    if n == 0 then Step(Success(acc), pos) else NextRecordsAt(rev, data, pos, n, acc)
  }

  /** A turn of a record loop with records left to read: the next record, then the
      rest after it. */
  function NextRecordsAt(rev: Revision, data: Octets, pos: nat, n: nat, acc: seq<Record>): (s: Step<seq<Record>>)
    requires pos <= |data| && n > 0
    ensures pos <= s.next <= |data|
    ensures s.result.Success? ==> |s.result.value| == |acc| + n && s.result.value[..|acc|] == acc
    decreases n, 1
  {
    ReadRecordsAt(rev, data, pos, n, acc)
  }

  /** The next record read, then the rest after it. It sits two calls below
      `RecordsAt` so that unfolding the loop reaches the record decoder only where
      a proof asks for the next record. */
  function ReadRecordsAt(rev: Revision, data: Octets, pos: nat, n: nat, acc: seq<Record>): (s: Step<seq<Record>>)
    requires pos <= |data| && n > 0
    ensures pos <= s.next <= |data|
    ensures s.result.Success? ==> |s.result.value| == |acc| + n && s.result.value[..|acc|] == acc
    decreases n, 0
  {
    var r := ResourceAt(rev, data, pos);
    if r.result.Failure? then Step(Failure(r.result.error), r.next)
    else
      var more := RecordsAt(rev, data, r.next, n - 1, acc + [r.result.value]);
      assert more.result.Success? ==> more.result.value[..|acc|] == (more.result.value[..|acc| + 1])[..|acc|];
      more
  }

  /** `FromBytes(data)`: the header, then the counted questions, answers,
      authorities and additionals, in that order. Any error is the result; there is
      no partial message. */
  function MessageAt(rev: Revision, data: Octets): (r: Result<Message>)
    ensures |data| < 12 ==> r == Failure(Truncated)
    ensures r.Success? ==> |data| >= 12 && r.value.header == Headers.FromWire(data[..12]) && Counted(r.value)
  {
    var h := Headers.HeaderAt(data, 0);
    if h.result.Failure? then Failure(h.result.error)
    else
      var hd := h.result.value;
      var qs := QuestionsAt(data, h.next, hd.qdCount as nat, []);
      if qs.result.Failure? then Failure(qs.result.error)
      else
        var an := RecordsAt(rev, data, qs.next, hd.anCount as nat, []);
        if an.result.Failure? then Failure(an.result.error)
        else
          var ns := RecordsAt(rev, data, an.next, hd.nsCount as nat, []);
          if ns.result.Failure? then Failure(ns.result.error)
          else
            var ar := RecordsAt(rev, data, ns.next, hd.arCount as nat, []);
            if ar.result.Failure? then Failure(ar.result.error)
            else Success(Message(hd, qs.result.value, an.result.value, ns.result.value, ar.result.value))
  }

  /** The header step of `FromBytes`: `d.Header.Parse(reader)`. */
  method ParseHeader(r: ByteReader) returns (h: Result<Header>)
    requires r.Valid()
    modifies r
    ensures r.Valid() && Step(h, r.pos) == Headers.HeaderAt(r.data, old(r.pos))
  {
    h := Headers.Parse(r);
  }

  /** The question loop of `FromBytes`. */
  method ParseQuestions(r: ByteReader, n: nat) returns (qs: Result<seq<Question>>)
    requires r.Valid()
    modifies r
    ensures r.Valid() && Step(qs, r.pos) == QuestionsAt(r.data, old(r.pos), n, [])
  {
    ghost var target := QuestionsAt(r.data, r.pos, n, []);
    ghost var left := n;
    var acc: seq<Question> := [];
    var i := 0;
    while i < n
      invariant r.Valid() && i <= n && left == n - i
      invariant QuestionsAt(r.data, r.pos, left, acc) == target
    {
      var q, err := ParseNextQuestion(r, left, acc);
      if err.Some? {
        return Failure(err.value);
      }
      acc := acc + [q];
      i, left := i + 1, left - 1;
    }
    qs := Success(acc);
  }

  /** One turn of the question loop: `Parse` reads the next question into a fresh
      `DNSQuestion`, which ends the loop with its error or joins the questions read
      so far. */
  method ParseNextQuestion(r: ByteReader, ghost n: nat, ghost acc: seq<Question>) returns (q: Question, err: Option<Error>)
    requires r.Valid() && n > 0
    modifies r
    ensures r.Valid()
    ensures err.Some? ==> QuestionsAt(r.data, old(r.pos), n, acc) == Step(Failure(err.value), r.pos)
    ensures err.None? ==> QuestionsAt(r.data, old(r.pos), n, acc) == QuestionsAt(r.data, r.pos, n - 1, acc + [q])
  {
    ghost var pos := r.pos;
    q, err := Questions.Parse(r, Questions.Question([], 0, 0));
    assert NextQuestionsAt(r.data, pos, n, acc) == ReadQuestionsAt(r.data, pos, n, acc);
  }

  /** One of the three record loops of `FromBytes`. */
  method ParseRecords(rev: Revision, r: ByteReader, n: nat) returns (rs: Result<seq<Record>>)
    requires r.Valid()
    modifies r
    ensures r.Valid() && Step(rs, r.pos) == RecordsAt(rev, r.data, old(r.pos), n, [])
  {
    ghost var target := RecordsAt(rev, r.data, r.pos, n, []);
    ghost var left := n;
    var acc: seq<Record> := [];
    var i := 0;
    while i < n
      invariant r.Valid() && i <= n && left == n - i
      invariant RecordsAt(rev, r.data, r.pos, left, acc) == target
    {
      var rec := ParseNext(rev, r, left, acc);
      if rec.Failure? {
        return Failure(rec.error);
      }
      acc := acc + [rec.value];
      i, left := i + 1, left - 1;
    }
    rs := Success(acc);
  }

  /** One turn of a record loop: `ParseResource` reads the next record, which ends
      the loop with its error or joins the records read so far. */
  method ParseNext(rev: Revision, r: ByteReader, ghost n: nat, ghost acc: seq<Record>) returns (rec: Result<Record>)
    requires r.Valid() && n > 0
    modifies r
    ensures r.Valid()
    ensures rec.Failure? ==> RecordsAt(rev, r.data, old(r.pos), n, acc) == Step(Failure(rec.error), r.pos)
    ensures rec.Success? ==> RecordsAt(rev, r.data, old(r.pos), n, acc) == RecordsAt(rev, r.data, r.pos, n - 1, acc + [rec.value])
  {
    ghost var pos := r.pos;
    rec := ParseResource(rev, r);
    assert NextRecordsAt(rev, r.data, pos, n, acc) == ReadRecordsAt(rev, r.data, pos, n, acc);
  }

  // ---------------------------------------------------------------------------
  // Encoding: Bytes
  // ---------------------------------------------------------------------------

  /** The items one after another, each as `f` writes it. */
  function Concat<T>(f: T -> Octets, xs: seq<T>): Octets
    decreases |xs|, 2
  {
    if xs == [] then [] else ConcatNext(f, xs)
  }

  /** `Concat` of a non-empty sequence. */
  function ConcatNext<T>(f: T -> Octets, xs: seq<T>): Octets
    requires xs != []
    decreases |xs|, 1
  {
    ConcatHead(f, xs)
  }

  /** The first item as `f` writes it, then the rest. It sits two calls below
      `Concat` so that unfolding the sequence reaches the item encoder only where
      a proof asks for the first item. */
  function ConcatHead<T>(f: T -> Octets, xs: seq<T>): Octets
    requires xs != []
    decreases |xs|, 0
  {
    f(xs[0]) + Concat(f, xs[1..])
  }

  /** Every record of the section can be written by the revision's `Bytes`. */
  predicate AllEncodable(rev: Revision, rs: seq<Record>)
  {
    forall i :: 0 <= i < |rs| ==> Encodes(rev, rs[i])
  }

  /** Every record of the message can be written. */
  predicate Encodable(rev: Revision, m: Message)
  {
    AllEncodable(rev, m.answers) && AllEncodable(rev, m.authorities) && AllEncodable(rev, m.additionals)
  }

  /** `DNSPacket.Bytes()`: the header with its counts as stored, then the questions,
      answers, authorities and additionals in that order. In the older revision a
      record whose `Bytes` panics makes the whole call panic. */
  function MessageBytes(rev: Revision, m: Message): (b: Result<Octets>)
    ensures b.Success? <==> Encodable(rev, m)
    ensures rev == Current ==> b.Success?
    ensures b.Success? ==> |b.value| >= 12 && b.value[..12] == Headers.Bytes(m.header)
  {
    if Encodable(rev, m) then
      var w := Headers.Bytes(m.header) + Concat(Questions.QuestionWire, m.questions)
        + Concat(RecordWire, m.answers) + Concat(RecordWire, m.authorities) + Concat(RecordWire, m.additionals);
      assert w[..12] == Headers.Bytes(m.header);
      Success(w)
    else Failure(Panic)
  }

  /** Writing one more item extends the output by that item. */
  lemma {:induction false} ConcatSnoc<T>(f: T -> Octets, xs: seq<T>, x: T)
    ensures Concat(f, xs + [x]) == Concat(f, xs) + f(x)
    decreases |xs|
  {
    if xs == [] {
      assert [] + [x] == [x] && [x][1..] == [];
      assert ConcatNext(f, [x]) == ConcatHead(f, [x]);
    } else {
      assert (xs + [x])[0] == xs[0] && (xs + [x])[1..] == xs[1..] + [x];
      assert ConcatNext(f, xs + [x]) == ConcatHead(f, xs + [x]);
      assert ConcatNext(f, xs) == ConcatHead(f, xs);
      ConcatSnoc(f, xs[1..], x);
    }
  }

  /** The question loop of `Bytes`. */
  method WriteQuestions(buf: Buffer, qs: seq<Question>)
    modifies buf
    ensures buf.bytes == old(buf.bytes) + Concat(Questions.QuestionWire, qs)
  {
    var i := 0;
    while i < |qs|
      invariant i <= |qs|
      invariant buf.bytes == old(buf.bytes) + Concat(Questions.QuestionWire, qs[..i])
    {
      WriteQuestion(buf, old(buf.bytes), qs[..i], qs[i]);
      SliceSnoc(qs, i);
      i := i + 1;
    }
    SliceAll(qs);
  }

  /** One turn of the question loop: `buf.Write(question.Bytes())`. */
  method WriteQuestion(buf: Buffer, ghost start: Octets, ghost done: seq<Question>, q: Question)
    requires buf.bytes == start + Concat(Questions.QuestionWire, done)
    modifies buf
    ensures buf.bytes == start + Concat(Questions.QuestionWire, done + [q])
  {
    var b := Questions.Bytes(q);
    buf.Write(b);
    ConcatSnoc(Questions.QuestionWire, done, q);
    Regroup(start, Concat(Questions.QuestionWire, done), b);
  }

  /** One record loop of `Bytes`: `false` as soon as a record's `Bytes` fails. */
  method WriteRecords(rev: Revision, buf: Buffer, rs: seq<Record>) returns (ok: bool)
    modifies buf
    ensures ok <==> AllEncodable(rev, rs)
    ensures ok ==> buf.bytes == old(buf.bytes) + Concat(RecordWire, rs)
  {
    var i := 0;
    while i < |rs|
      invariant i <= |rs| && AllEncodable(rev, rs[..i])
      invariant buf.bytes == old(buf.bytes) + Concat(RecordWire, rs[..i])
    {
      ok := WriteRecord(rev, buf, old(buf.bytes), rs[..i], rs[i]);
      if !ok {
        return false;
      }
      SliceSnoc(rs, i);
      i := i + 1;
    }
    SliceAll(rs);
    ok := true;
  }

  /** One turn of a record loop: `buf.Write(answer.Bytes())`, unless `Bytes` fails. */
  method WriteRecord(rev: Revision, buf: Buffer, ghost start: Octets, ghost done: seq<Record>, rec: Record)
    returns (ok: bool)
    requires buf.bytes == start + Concat(RecordWire, done)
    modifies buf
    ensures ok <==> Encodes(rev, rec)
    ensures ok ==> buf.bytes == start + Concat(RecordWire, done + [rec])
  {
    var b := Resources.Bytes(rev, rec);
    if b.Failure? {
      return false;
    }
    buf.Write(b.value);
    ConcatSnoc(RecordWire, done, rec);
    Regroup(start, Concat(RecordWire, done), b.value);
    ok := true;
  }

  /** The first `i + 1` items are the first `i`, then item `i`. */
  lemma SliceSnoc<T>(xs: seq<T>, i: nat)
    requires i < |xs|
    ensures xs[..i] + [xs[i]] == xs[..i + 1]
  {
  }

  lemma SliceAll<T>(xs: seq<T>)
    ensures xs[..|xs|] == xs
  {
  }

  lemma Regroup<T>(a: seq<T>, b: seq<T>, c: seq<T>)
    ensures a + b + c == a + (b + c)
  {
  }

  // ---------------------------------------------------------------------------
  // The packet object and its builders
  // ---------------------------------------------------------------------------

  /** The message after `AddQuestion(q)`: `q` appended, and QDCOUNT set to the new
      number of questions truncated to 16 bits. */
  function WithQuestion(m: Message, q: Question): Message
  {
    m.(questions := m.questions + [q], header := m.header.(qdCount := Len16(|m.questions| + 1)))
  }

  /** `DNSPacket`: the header and the four sections, which the builders extend. */
  class Packet {
    var header: Header
    var questions: seq<Question>
    var answers: seq<Record>
    var authorities: seq<Record>
    var additionals: seq<Record>

    function Value(): Message
      reads this
    {
      Message(header, questions, answers, authorities, additionals)
    }

    /** `NewPacket()`: a query header with every count 0 and four empty sections;
        the ID, random in the Go code, is a parameter. */
    constructor (id: U16)
      ensures Value() == Message(Headers.NewHeader(id), [], [], [], [])
    {
      header := Headers.NewHeader(id);
      questions, answers, authorities, additionals := [], [], [], [];
    }

    /** `FromBytes(data)`: the decoded packet, or no packet and the error. */
    static method FromBytes(rev: Revision, data: Octets) returns (d: Packet?, err: Option<Error>)
      ensures MessageAt(rev, data).Success? ==> err.None? && d != null && fresh(d) && d.Value() == MessageAt(rev, data).value
      ensures MessageAt(rev, data).Failure? ==> d == null && err == Some(MessageAt(rev, data).error)
    {
      var r := new ByteReader(data);
      var h := ParseHeader(r);
      if h.Failure? {
        return null, Some(h.error);
      }
      var qs := ParseQuestions(r, h.value.qdCount as nat);
      if qs.Failure? {
        return null, Some(qs.error);
      }
      var an := ParseRecords(rev, r, h.value.anCount as nat);
      if an.Failure? {
        return null, Some(an.error);
      }
      var ns := ParseRecords(rev, r, h.value.nsCount as nat);
      if ns.Failure? {
        return null, Some(ns.error);
      }
      var ar := ParseRecords(rev, r, h.value.arCount as nat);
      if ar.Failure? {
        return null, Some(ar.error);
      }
      d := new Packet(0);
      d.header, d.questions, d.answers, d.authorities, d.additionals := h.value, qs.value, an.value, ns.value, ar.value;
      err := None;
    }

    /** `packet.Bytes()`. */
    method Bytes(rev: Revision) returns (b: Result<Octets>)
      ensures b == MessageBytes(rev, Value())
    {
      var buf := new Buffer();
      buf.Write(Headers.Bytes(header));
      assert buf.bytes == Headers.Bytes(header);
      WriteQuestions(buf, questions);
      var ok := WriteRecords(rev, buf, answers);
      if !ok {
        return Failure(Panic);
      }
      ok := WriteRecords(rev, buf, authorities);
      if !ok {
        return Failure(Panic);
      }
      ok := WriteRecords(rev, buf, additionals);
      if !ok {
        return Failure(Panic);
      }
      b := Success(buf.bytes);
    }

    /** `AddQuestion(question)`. */
    method AddQuestion(q: Question)
      modifies this
      ensures Value() == WithQuestion(old(Value()), q)
    {
      questions := questions + [q];
      header := header.(qdCount := Len16(|questions|));
    }

    /** `AddAnswer(answer)`: the answer is appended; the header is left alone. */
    method AddAnswer(rec: Record)
      modifies this
      ensures Value() == old(Value()).(answers := old(answers) + [rec])
    {
      answers := answers + [rec];
    }

    /** `AddAuthority(authority)`: appended; the header is left alone. */
    method AddAuthority(rec: Record)
      modifies this
      ensures Value() == old(Value()).(authorities := old(authorities) + [rec])
    {
      authorities := authorities + [rec];
    }

    /** `AddAdditional(additional)`: appended; the header is left alone. */
    method AddAdditional(rec: Record)
      modifies this
      ensures Value() == old(Value()).(additionals := old(additionals) + [rec])
    {
      additionals := additionals + [rec];
    }

    method AddQuestionA(domain: Octets)
      modifies this
      ensures Value() == WithQuestion(old(Value()), Questions.Question(domain, TypeA, Mnemonics.ClassIN))
    {
      AddQuestion(Questions.Question(domain, TypeA, Mnemonics.ClassIN));
    }

    method AddQuestionAAAA(domain: Octets)
      modifies this
      ensures Value() == WithQuestion(old(Value()), Questions.Question(domain, TypeAAAA, Mnemonics.ClassIN))
    {
      AddQuestion(Questions.Question(domain, TypeAAAA, Mnemonics.ClassIN));
    }

    method AddQuestionCNAME(domain: Octets)
      modifies this
      ensures Value() == WithQuestion(old(Value()), Questions.Question(domain, TypeCNAME, Mnemonics.ClassIN))
    {
      AddQuestion(Questions.Question(domain, TypeCNAME, Mnemonics.ClassIN));
    }

    method AddQuestionMX(domain: Octets)
      modifies this
      ensures Value() == WithQuestion(old(Value()), Questions.Question(domain, TypeMX, Mnemonics.ClassIN))
    {
      AddQuestion(Questions.Question(domain, TypeMX, Mnemonics.ClassIN));
    }

    method AddQuestionNS(domain: Octets)
      modifies this
      ensures Value() == WithQuestion(old(Value()), Questions.Question(domain, TypeNS, Mnemonics.ClassIN))
    {
      AddQuestion(Questions.Question(domain, TypeNS, Mnemonics.ClassIN));
    }

    method AddQuestionTXT(domain: Octets)
      modifies this
      ensures Value() == WithQuestion(old(Value()), Questions.Question(domain, TypeTXT, Mnemonics.ClassIN))
    {
      AddQuestion(Questions.Question(domain, TypeTXT, Mnemonics.ClassIN));
    }

    method AddQuestionSOA(domain: Octets)
      modifies this
      ensures Value() == WithQuestion(old(Value()), Questions.Question(domain, TypeSOA, Mnemonics.ClassIN))
    {
      AddQuestion(Questions.Question(domain, TypeSOA, Mnemonics.ClassIN));
    }

    method AddQuestionPTR(domain: Octets)
      modifies this
      ensures Value() == WithQuestion(old(Value()), Questions.Question(domain, TypePTR, Mnemonics.ClassIN))
    {
      AddQuestion(Questions.Question(domain, TypePTR, Mnemonics.ClassIN));
    }

    method AddQuestionSRV(domain: Octets)
      modifies this
      ensures Value() == WithQuestion(old(Value()), Questions.Question(domain, TypeSRV, Mnemonics.ClassIN))
    {
      AddQuestion(Questions.Question(domain, TypeSRV, Mnemonics.ClassIN));
    }
  }

  // ---------------------------------------------------------------------------
  // Round trips
  // ---------------------------------------------------------------------------

  /** Each item as `f` maps it. */
  function Map<T, U>(f: T -> U, xs: seq<T>): (ys: seq<U>)
    ensures |ys| == |xs| && forall i :: 0 <= i < |xs| ==> ys[i] == f(xs[i])
  {
    seq(|xs|, i requires 0 <= i < |xs| => f(xs[i]))
  }

  lemma ConcatFirst<T>(f: T -> Octets, xs: seq<T>)
    requires xs != []
    ensures Concat(f, xs) == f(xs[0]) + Concat(f, xs[1..])
  {
    assert ConcatNext(f, xs) == ConcatHead(f, xs);
  }

  lemma MapFirst<T, U>(f: T -> U, xs: seq<T>, acc: seq<U>)
    requires xs != []
    ensures acc + [f(xs[0])] + Map(f, xs[1..]) == acc + Map(f, xs)
  {
    assert [f(xs[0])] + Map(f, xs[1..]) == Map(f, xs);
  }

  lemma ConsAppend<T>(acc: seq<T>, xs: seq<T>)
    requires xs != []
    ensures acc + [xs[0]] + xs[1..] == acc + xs
  {
    assert xs == [xs[0]] + xs[1..];
  }

  lemma AppendNothing<T>(xs: seq<T>)
    ensures [] + xs == xs && xs + [] == xs
  {
  }

  /** Every question name has labels of 1 to 63 bytes. */
  predicate QuestionsWellFormed(qs: seq<Question>)
  {
    forall i :: 0 <= i < |qs| ==> WellFormed(qs[i].name)
  }

  /** A record that reads back from what the current revision writes: an owner name
      that ends in '.', with well-formed labels before it, and a payload that
      decodes to itself under its own type code. */
  predicate RecordReparses(rec: Record)
  {
    var name := rec.prefix.name;
    |name| > 0 && name[|name| - 1] == Dot && WellFormed(name[..|name| - 1])
      && RoundTrips(rec.payload) && rec.prefix.rtype == KindOf(rec.payload)
  }

  predicate AllReparse(rs: seq<Record>)
  {
    forall i :: 0 <= i < |rs| ==> RecordReparses(rs[i])
  }

  /** The record as it is read back: the owner name loses its trailing dot. */
  function Reparsed(rec: Record): Record
  {
    var name := rec.prefix.name;
    Record(rec.prefix.(name := if |name| > 0 then name[..|name| - 1] else name), rec.payload)
  }

  /** One turn of the question loop when the next question reads without error. */
  lemma QuestionsAtNext(data: Octets, pos: nat, n: nat, acc: seq<Question>, q: Question, next: nat)
    requires pos <= |data| && n > 0
    requires Questions.QuestionAt(data, pos, Questions.Question([], 0, 0)) == Questions.Outcome(q, None, next)
    ensures QuestionsAt(data, pos, n, acc) == QuestionsAt(data, next, n - 1, acc + [q])
  {
    assert NextQuestionsAt(data, pos, n, acc) == ReadQuestionsAt(data, pos, n, acc);
  }

  /** One turn of a record loop when the next record reads without error. */
  lemma RecordsAtNext(rev: Revision, data: Octets, pos: nat, n: nat, acc: seq<Record>, rec: Record, next: nat)
    requires pos <= |data| && n > 0
    requires ResourceAt(rev, data, pos) == Step(Success(rec), next)
    ensures RecordsAt(rev, data, pos, n, acc) == RecordsAt(rev, data, next, n - 1, acc + [rec])
  {
    assert NextRecordsAt(rev, data, pos, n, acc) == ReadRecordsAt(rev, data, pos, n, acc);
  }

  /** Questions written one after another are read back in order by the question
      loop, and the cursor lands just past them. */
  lemma {:induction false} QuestionsRoundTrip(data: Octets, pos: nat, qs: seq<Question>, acc: seq<Question>)
    requires QuestionsWellFormed(qs) && At(data, pos, Concat(Questions.QuestionWire, qs))
    ensures QuestionsAt(data, pos, |qs|, acc) == Step(Success(acc + qs), pos + |Concat(Questions.QuestionWire, qs)|)
    decreases |qs|
  {
    if qs == [] {
      AppendNothing(acc);
    } else {
      var next := FirstQuestion(data, pos, qs, acc);
      QuestionsRoundTrip(data, next, qs[1..], acc + [qs[0]]);
      ConsAppend(acc, qs);
    }
  }

  /** Questions written at `pos` are read as the first question, and reading goes
      on with the rest right after it. */
  lemma FirstQuestion(data: Octets, pos: nat, qs: seq<Question>, acc: seq<Question>) returns (next: nat)
    requires qs != [] && QuestionsWellFormed(qs) && At(data, pos, Concat(Questions.QuestionWire, qs))
    ensures QuestionsWellFormed(qs[1..]) && At(data, next, Concat(Questions.QuestionWire, qs[1..]))
    ensures next + |Concat(Questions.QuestionWire, qs[1..])| == pos + |Concat(Questions.QuestionWire, qs)|
    ensures QuestionsAt(data, pos, |qs|, acc) == QuestionsAt(data, next, |qs| - 1, acc + [qs[0]])
  {
    next := ConcatAt(Questions.QuestionWire, qs, data, pos);
    QuestionsTail(qs);
    QuestionsStep(data, pos, |qs|, acc, qs[0]);
  }

  /** A question written at `pos` is one turn of the question loop. */
  lemma QuestionsStep(data: Octets, pos: nat, n: nat, acc: seq<Question>, q: Question)
    requires n > 0 && WellFormed(q.name) && At(data, pos, Questions.QuestionWire(q))
    ensures QuestionsAt(data, pos, n, acc) == QuestionsAt(data, pos + |Questions.QuestionWire(q)|, n - 1, acc + [q])
  {
    Questions.QuestionRoundTrip(data, pos, q, Questions.Question([], 0, 0));
    QuestionsAtNext(data, pos, n, acc, q, pos + |Questions.QuestionWire(q)|);
  }

  lemma QuestionsTail(qs: seq<Question>)
    requires qs != [] && QuestionsWellFormed(qs)
    ensures WellFormed(qs[0].name) && QuestionsWellFormed(qs[1..])
  {
    forall i | 0 <= i < |qs[1..]| ensures WellFormed(qs[1..][i].name) {
      assert qs[1..][i] == qs[i + 1];
    }
  }

  /** Items written at `pos` hold the first item there and the rest right after. */
  lemma ConcatAt<T>(f: T -> Octets, xs: seq<T>, data: Octets, pos: nat) returns (next: nat)
    requires xs != [] && At(data, pos, Concat(f, xs))
    ensures next == pos + |f(xs[0])|
    ensures At(data, pos, f(xs[0])) && At(data, next, Concat(f, xs[1..]))
    ensures next + |Concat(f, xs[1..])| == pos + |Concat(f, xs)|
  {
    next := pos + |f(xs[0])|;
    ConcatFirst(f, xs);
    AtSplit(data, pos, f(xs[0]), Concat(f, xs[1..]));
  }

  /** Records written one after another by the current revision are read back in
      order by a record loop of either revision, each with its owner name's
      trailing dot gone, and the cursor lands just past them. */
  lemma {:induction false} RecordsRoundTrip(rev: Revision, data: Octets, pos: nat, rs: seq<Record>, acc: seq<Record>)
    requires AllReparse(rs) && At(data, pos, Concat(RecordWire, rs))
    ensures RecordsAt(rev, data, pos, |rs|, acc) == Step(Success(acc + Map(Reparsed, rs)), pos + |Concat(RecordWire, rs)|)
    decreases |rs|
  {
    if rs == [] {
      AppendNothing(acc);
    } else {
      var next := FirstRecord(rev, data, pos, rs, acc);
      RecordsRoundTrip(rev, data, next, rs[1..], acc + [Reparsed(rs[0])]);
      MapFirst(Reparsed, rs, acc);
    }
  }

  /** Records written at `pos` are read as the first record, and reading goes on
      with the rest right after it. */
  lemma FirstRecord(rev: Revision, data: Octets, pos: nat, rs: seq<Record>, acc: seq<Record>) returns (next: nat)
    requires rs != [] && AllReparse(rs) && At(data, pos, Concat(RecordWire, rs))
    ensures AllReparse(rs[1..]) && At(data, next, Concat(RecordWire, rs[1..]))
    ensures next + |Concat(RecordWire, rs[1..])| == pos + |Concat(RecordWire, rs)|
    ensures RecordsAt(rev, data, pos, |rs|, acc) == RecordsAt(rev, data, next, |rs| - 1, acc + [Reparsed(rs[0])])
  {
    next := ConcatAt(RecordWire, rs, data, pos);
    RecordsTail(rs);
    RecordStep(rev, data, pos, rs[0]);
    RecordsAtNext(rev, data, pos, |rs|, acc, Reparsed(rs[0]), next);
  }

  lemma RecordsTail(rs: seq<Record>)
    requires rs != [] && AllReparse(rs)
    ensures RecordReparses(rs[0]) && AllReparse(rs[1..])
  {
    forall i | 0 <= i < |rs[1..]| ensures RecordReparses(rs[1..][i]) {
      assert rs[1..][i] == rs[i + 1];
    }
  }

  /** One record of `RecordsRoundTrip`. */
  lemma RecordStep(rev: Revision, data: Octets, pos: nat, rec: Record)
    requires RecordReparses(rec) && At(data, pos, RecordWire(rec))
    ensures ResourceAt(rev, data, pos) == Step(Success(Reparsed(rec)), pos + |RecordWire(rec)|)
  {
    var name := rec.prefix.name;
    var base := name[..|name| - 1];
    assert name == base + [Dot];
    WrappedRoundTrip(rev, data, pos, rec.prefix, base, rec.payload);
  }

  /** A message the current revision can write back exactly: flags within their
      widths, every count equal to its section's length, well-formed question
      names, and records that read back. */
  predicate MessageReparses(m: Message)
  {
    Headers.FlagsFit(m.header) && Counted(m) && QuestionsWellFormed(m.questions)
      && AllReparse(m.answers) && AllReparse(m.authorities) && AllReparse(m.additionals)
  }

  /** `FromBytes` put together from its parts. */
  lemma MessageAtParts(rev: Revision, data: Octets, m: Message, p1: nat, p2: nat, p3: nat, p4: nat)
    requires Counted(m) && 12 <= |data| && Headers.HeaderAt(data, 0) == Step(Success(m.header), 12)
    requires QuestionsAt(data, 12, |m.questions|, []) == Step(Success(m.questions), p1)
    requires RecordsAt(rev, data, p1, |m.answers|, []) == Step(Success(m.answers), p2)
    requires RecordsAt(rev, data, p2, |m.authorities|, []) == Step(Success(m.authorities), p3)
    requires RecordsAt(rev, data, p3, |m.additionals|, []) == Step(Success(m.additionals), p4)
    ensures MessageAt(rev, data) == Success(m)
  {
  }

  /** Where each part of a written message sits in the input. */
  lemma MessageFields(data: Octets, hb: Octets, qw: Octets, aw: Octets, nw: Octets, rw: Octets)
    requires At(data, 0, hb + qw + aw + nw + rw)
    ensures At(data, 0, hb) && At(data, |hb|, qw) && At(data, |hb| + |qw|, aw)
      && At(data, |hb| + |qw| + |aw|, nw) && At(data, |hb| + |qw| + |aw| + |nw|, rw)
  {
    AtSplit(data, 0, hb + qw + aw + nw, rw);
    AtSplit4(data, 0, hb, qw, aw, nw);
  }

  /** The three record sections written one after another at `pos` are read back by
      the three record loops, each with as many records as it holds. */
  lemma SectionsRoundTrip(rev: Revision, data: Octets, pos: nat, an: seq<Record>, ns: seq<Record>, ar: seq<Record>)
    returns (p2: nat, p3: nat, p4: nat)
    requires AllReparse(an) && AllReparse(ns) && AllReparse(ar)
    requires At(data, pos, Concat(RecordWire, an))
    requires At(data, pos + |Concat(RecordWire, an)|, Concat(RecordWire, ns))
    requires At(data, pos + |Concat(RecordWire, an)| + |Concat(RecordWire, ns)|, Concat(RecordWire, ar))
    ensures RecordsAt(rev, data, pos, |an|, []) == Step(Success(Map(Reparsed, an)), p2)
    ensures RecordsAt(rev, data, p2, |ns|, []) == Step(Success(Map(Reparsed, ns)), p3)
    ensures RecordsAt(rev, data, p3, |ar|, []) == Step(Success(Map(Reparsed, ar)), p4)
  {
    p2 := pos + |Concat(RecordWire, an)|;
    p3 := p2 + |Concat(RecordWire, ns)|;
    p4 := p3 + |Concat(RecordWire, ar)|;
    RecordsRoundTrip(rev, data, pos, an, []);
    RecordsRoundTrip(rev, data, p2, ns, []);
    RecordsRoundTrip(rev, data, p3, ar, []);
    AppendNothing(Map(Reparsed, an));
    AppendNothing(Map(Reparsed, ns));
    AppendNothing(Map(Reparsed, ar));
  }

  /** What `MessageRoundTrip` needs of the written bytes: the header at 0, the
      questions after it, then the three record sections. */
  lemma MessageLayout(data: Octets, m: Message)
    requires At(data, 0, MessageBytes(Current, m).value)
    ensures var qw := Concat(Questions.QuestionWire, m.questions);
      var aw, nw := Concat(RecordWire, m.answers), Concat(RecordWire, m.authorities);
      At(data, 0, Headers.Bytes(m.header)) && At(data, 12, qw) && At(data, 12 + |qw|, aw)
      && At(data, 12 + |qw| + |aw|, nw) && At(data, 12 + |qw| + |aw| + |nw|, Concat(RecordWire, m.additionals))
  {
    var hb, qw := Headers.Bytes(m.header), Concat(Questions.QuestionWire, m.questions);
    var aw, nw, rw := Concat(RecordWire, m.answers), Concat(RecordWire, m.authorities), Concat(RecordWire, m.additionals);
    assert MessageBytes(Current, m).value == hb + qw + aw + nw + rw;
    MessageFields(data, hb, qw, aw, nw, rw);
  }

  /** Each part of a written message is read back in turn: the header, the
      questions and the three record sections, each ending where the next begins. */
  lemma MessageSections(rev: Revision, data: Octets, m: Message) returns (p1: nat, p2: nat, p3: nat, p4: nat)
    requires MessageReparses(m)
    requires At(data, 0, MessageBytes(Current, m).value)
    ensures 12 <= |data| && Headers.HeaderAt(data, 0) == Step(Success(m.header), 12)
    ensures QuestionsAt(data, 12, |m.questions|, []) == Step(Success(m.questions), p1)
    ensures RecordsAt(rev, data, p1, |m.answers|, []) == Step(Success(Map(Reparsed, m.answers)), p2)
    ensures RecordsAt(rev, data, p2, |m.authorities|, []) == Step(Success(Map(Reparsed, m.authorities)), p3)
    ensures RecordsAt(rev, data, p3, |m.additionals|, []) == Step(Success(Map(Reparsed, m.additionals)), p4)
  {
    var qw := Concat(Questions.QuestionWire, m.questions);
    MessageLayout(data, m);
    Headers.HeaderAtBytes(data, 0, m.header);
    QuestionsRoundTrip(data, 12, m.questions, []);
    AppendNothing(m.questions);
    p1 := 12 + |qw|;
    p2, p3, p4 := SectionsRoundTrip(rev, data, p1, m.answers, m.authorities, m.additionals);
  }

  /** `FromBytes(Bytes())`: a message the current revision writes is read back by
      either revision with the same header and questions, and with the same
      records apart from the trailing dots of their owner names. Anything after
      the message in the input is ignored. */
  lemma MessageRoundTrip(rev: Revision, data: Octets, m: Message)
    requires MessageReparses(m)
    requires At(data, 0, MessageBytes(Current, m).value)
    ensures MessageAt(rev, data)
      == Success(Message(m.header, m.questions, Map(Reparsed, m.answers), Map(Reparsed, m.authorities), Map(Reparsed, m.additionals)))
  {
    var p1, p2, p3, p4 := MessageSections(rev, data, m);
    MessageAtParts(rev, data,
      Message(m.header, m.questions, Map(Reparsed, m.answers), Map(Reparsed, m.authorities), Map(Reparsed, m.additionals)),
      p1, p2, p3, p4);
  }

  /** A header whose four counts are all 0 ends the message for `FromBytes`,
      whatever sections the packet held when it was written. The example server
      answers this way: its response has a question and an answer but leaves
      every count at 0, so a client reads back neither. */
  lemma NoCountsReadNothing(rev: Revision, data: Octets, m: Message)
    requires Headers.FlagsFit(m.header)
    requires m.header.qdCount == 0 && m.header.anCount == 0 && m.header.nsCount == 0 && m.header.arCount == 0
    requires At(data, 0, MessageBytes(Current, m).value)
    ensures MessageAt(rev, data) == Success(Message(m.header, [], [], [], []))
  {
    MessageLayout(data, m);
    Headers.HeaderAtBytes(data, 0, m.header);
    MessageAtParts(rev, data, Message(m.header, [], [], [], []), 12, 12, 12, 12);
  }

  /** Records added with `AddAnswer`, `AddAuthority` or `AddAdditional` leave the
      counts at 0, so `Bytes` writes them but `FromBytes` does not read them: only
      the counted questions come back. */
  lemma RecordsWithoutCounts(rev: Revision, data: Octets, m: Message)
    requires Headers.FlagsFit(m.header) && QuestionsWellFormed(m.questions)
    requires m.header.qdCount as int == |m.questions|
    requires m.header.anCount == 0 && m.header.nsCount == 0 && m.header.arCount == 0
    requires At(data, 0, MessageBytes(Current, m).value)
    ensures MessageAt(rev, data) == Success(Message(m.header, m.questions, [], [], []))
  {
    var p1 := 12 + |Concat(Questions.QuestionWire, m.questions)|;
    MessageLayout(data, m);
    Headers.HeaderAtBytes(data, 0, m.header);
    QuestionsRoundTrip(data, 12, m.questions, []);
    AppendNothing(m.questions);
    MessageAtParts(rev, data, Message(m.header, m.questions, [], [], []), p1, p1, p1, p1);
  }

  /** `AddQuestion` once for each of `qs`, in order. */
  function AddQuestions(m: Message, qs: seq<Question>): Message
    decreases |qs|
  {
    if qs == [] then m else AddQuestions(WithQuestion(m, qs[0]), qs[1..])
  }

  /** Adding questions to a counted message keeps it counted while there are fewer
      than 65536: the questions are appended in order, the question count follows
      them, and nothing else changes. */
  lemma {:induction false} AddQuestionsCounted(m: Message, qs: seq<Question>)
    requires Counted(m) && |m.questions| + |qs| < 0x1_0000
    ensures var r := AddQuestions(m, qs);
      Counted(r) && r.questions == m.questions + qs
      && r.header == m.header.(qdCount := (|m.questions| + |qs|) as U16)
      && r.answers == m.answers && r.authorities == m.authorities && r.additionals == m.additionals
    decreases |qs|
  {
    if qs == [] {
      AppendNothing(m.questions);
    } else {
      AddQuestionsCounted(WithQuestion(m, qs[0]), qs[1..]);
      ConsAppend(m.questions, qs);
    }
  }

  /** The packet built by `NewPacket()` plus `AddQuestion` for each question is a
      query that `FromBytes` reads back exactly from what `Bytes()` writes. This is
      the client's request. */
  lemma QueryRoundTrip(rev: Revision, id: U16, qs: seq<Question>, data: Octets)
    requires QuestionsWellFormed(qs) && |qs| < 0x1_0000
    requires At(data, 0, MessageBytes(Current, AddQuestions(Message(Headers.NewHeader(id), [], [], [], []), qs)).value)
    ensures MessageAt(rev, data) == Success(AddQuestions(Message(Headers.NewHeader(id), [], [], [], []), qs))
  {
    var m := AddQuestions(Message(Headers.NewHeader(id), [], [], [], []), qs);
    AddQuestionsCounted(Message(Headers.NewHeader(id), [], [], [], []), qs);
    assert Headers.FlagsFit(m.header) by {
      assert m.header == Headers.NewHeader(id).(qdCount := |qs| as U16);
    }
    RecordsWithoutCounts(rev, data, m);
  }
}
