/**
  Domain names (section 3.1 and section 4.1.4 of RFC 1035).

  In memory a name is the dotted text the Go code keeps in a `string`; on the wire
  it is a chain of labels, each a length byte followed by that many bytes, ended
  by a zero byte or by a two-byte compression pointer to an earlier chain.

  The encoder never compresses. The decoder follows pointers; unlike the Go code,
  which recurses through any pointer, it accepts only a pointer whose target lies
  strictly before the offset where the current chain began (a "prior occurrence"
  in section 4.1.4 of RFC 1035) and fails with BadPointer otherwise. Wherever it
  yields a name, the Go code yields the same name (GuardedAgrees); a forward
  pointer, or one into the chain it ends, fails here with BadPointer although the
  Go code may still decode it. Every input now terminates (see UnguardedNameAt
  below for the Go behaviour).
 */
module Names {
  import opened Wire

  const Dot: Byte := 0x2E

  // ---------------------------------------------------------------------------
  // Dotted text: strings.Split and strings.Join with separator "."
  // ---------------------------------------------------------------------------

  /** `strings.Split(s, ".")`: the pieces between dots; "" gives [""]. */
  function Split(s: Octets): (parts: seq<Octets>)
    ensures |parts| >= 1
    decreases |s|
  {
    if s == [] then [[]]
    else
      var rest := Split(s[1..]);
      if s[0] == Dot then [[]] + rest else [[s[0]] + rest[0]] + rest[1..]
  }

  /** `strings.Join(parts, ".")`. */
  function Join(parts: seq<Octets>): Octets
  {
    if parts == [] then []
    else if |parts| == 1 then parts[0]
    else parts[0] + [Dot] + Join(parts[1..])
  }

  /** Joining the pieces of a split gives the text back. */
  lemma {:induction false} JoinSplit(s: Octets)
    ensures Join(Split(s)) == s
  {
    if s != [] {
      JoinSplit(s[1..]);
      var rest := Split(s[1..]);
      if s[0] == Dot {
        assert Split(s) == [[]] + rest;
        assert Join(Split(s)) == [] + [Dot] + Join(rest);
      } else {
        assert Split(s) == [[s[0]] + rest[0]] + rest[1..];
        if |rest| > 1 {
          assert Join(rest) == rest[0] + [Dot] + Join(rest[1..]);
        }
      }
    }
  }

  /** The pieces of a split never contain the separator. */
  lemma {:induction false} SplitDotFree(s: Octets, i: nat)
    requires i < |Split(s)|
    ensures Dot !in Split(s)[i]
  {
    if s != [] {
      var rest := Split(s[1..]);
      if s[0] == Dot {
        if i > 0 { SplitDotFree(s[1..], i - 1); }
      } else if i == 0 {
        SplitDotFree(s[1..], 0);
      } else {
        SplitDotFree(s[1..], i);
      }
    }
  }

  /** A trailing dot adds one empty label. */
  lemma {:induction false} SplitTrailingDot(s: Octets)
    ensures Split(s + [Dot]) == Split(s) + [[]]
    decreases |s|
  {
    if s == [] {
      assert Split([Dot]) == [[]] + Split([]);
    } else {
      assert (s + [Dot])[1..] == s[1..] + [Dot];
      SplitTrailingDot(s[1..]);
    }
  }

  // ---------------------------------------------------------------------------
  // Encoding: encodeDomainName
  // ---------------------------------------------------------------------------

  /** One label on the wire: `byte(len(label))` (the length modulo 256, unchecked)
      followed by the label's bytes. */
  function LabelWire(lbl: Octets): Octets
  {
    [LengthByte(lbl)] + lbl
  }

  /** Go's `byte(len(label))`. */
  function LengthByte(lbl: Octets): Byte
  {
    (|lbl| % 256) as Byte
  }

  function LabelsWire(labels: seq<Octets>): Octets
  {
    if labels == [] then [] else LabelWire(labels[0]) + LabelsWire(labels[1..])
  }

  lemma {:induction false} LabelsWireAppend(labels: seq<Octets>, lbl: Octets)
    ensures LabelsWire(labels + [lbl]) == LabelsWire(labels) + LabelWire(lbl)
  {
    if labels != [] {
      assert (labels + [lbl])[1..] == labels[1..] + [lbl];
      LabelsWireAppend(labels[1..], lbl);
    }
  }

  lemma {:induction false} LabelsWireLength(labels: seq<Octets>)
    ensures |LabelsWire(labels)| >= |labels|
  {
    if labels != [] { LabelsWireLength(labels[1..]); }
  }

  /** The wire form of `name`: one length-prefixed label per dot-separated piece,
      then a zero byte only when `terminate` is set (the flag of the current
      revision's encoder; the older revision always terminates). */
  function NameWire(name: Octets, terminate: bool): Octets
  {
    LabelsWire(Split(name)) + (if terminate then [0] else [])
  }

  /** A label the decoder reads back as itself: 1 to 63 bytes (section 2.3.4 of RFC 1035). */
  predicate ValidLabel(lbl: Octets)
  {
    1 <= |lbl| <= 63
  }

  predicate ValidLabels(labels: seq<Octets>)
  {
    forall i :: 0 <= i < |labels| ==> ValidLabel(labels[i])
  }

  /** A name whose every dot-separated label is 1 to 63 bytes: not empty, no
      leading, trailing or doubled dot. */
  predicate WellFormed(name: Octets)
  {
    ValidLabels(Split(name))
  }

  /** `encodeDomainName(buf, domain, addNullTerminator)`: appends the wire form. */
  method EncodeDomainName(buf: Buffer, domain: Octets, addNullTerminator: bool)
    modifies buf
    ensures buf.bytes == old(buf.bytes) + NameWire(domain, addNullTerminator)
  {
    var labels := Split(domain);
    for i := 0 to |labels|
      invariant buf.bytes == old(buf.bytes) + LabelsWire(labels[..i])
    {
      buf.WriteByte(LengthByte(labels[i]));
      buf.Write(labels[i]);
      LabelsWireAppend(labels[..i], labels[i]);
      assert labels[..i + 1] == labels[..i] + [labels[i]];
    }
    assert labels[..|labels|] == labels;
    if addNullTerminator {
      buf.WriteByte(0x00);
    }
  }

  /** Without the terminator flag, a name with a trailing dot still ends in a zero
      byte: its empty last label is written as a lone 0x00. */
  lemma TrailingDotTerminates(name: Octets)
    ensures NameWire(name + [Dot], false) == NameWire(name, true)
  {
    SplitTrailingDot(name);
    LabelsWireAppend(Split(name), []);
  }

  /** The empty name is one empty label, so with the flag it becomes two zero bytes. */
  lemma EmptyNameWire()
    ensures NameWire([], true) == [0, 0] && NameWire([], false) == [0]
  {
  }

  // ---------------------------------------------------------------------------
  // Decoding: decodeDomainName and readPointer
  // ---------------------------------------------------------------------------

  /** A length byte with both top bits set starts a pointer (section 4.1.4 of RFC 1035). */
  predicate IsPointer(b: Byte)
  {
    b >= 0xC0
  }

  /** `IsPointer` is Go's test `labelLen&0xc0 == 0xc0`. */
  lemma IsPointerMask(b: Byte)
    ensures IsPointer(b) <==> (b as bv8) & 0xC0 == 0xC0
  {
  }

  /** The 14-bit offset of a pointer `first second` with `first & 0xC0 == 0xC0`,
      counted from the start of the buffer. */
  function PointerTarget(first: Byte, second: Byte): (target: nat)
    ensures target < 0x4000
  {
    (first as int % 64) * 256 + second as int
  }

  /** Go's `uint16(labelLen&0x3f)<<8 | uint16(pointerByte)`: once the two
      pointer bits are stripped, the first byte is the high half of the offset. */
  lemma PointerTargetFormula(first: Byte, second: Byte)
    requires IsPointer(first)
    ensures PointerTarget(first, second) == (first as int - 0xC0) * 256 + second as int
  {
  }

  /** How a run of labels ended: at a zero byte, or at the first byte of a pointer. */
  datatype Chain = Chain(parts: seq<Octets>, pointer: Option<Byte>)

  /** The loop of `decodeDomainName` from cursor `pos`, with `parts` read so far.
      A zero byte ends the name; a byte with both top bits set is the first byte of
      a pointer, which ends the loop; any other byte is the length of a label that
      follows. Fails when the input ends at a length byte or inside a label. */
  function ChainAt(data: Octets, pos: nat, parts: seq<Octets>): (s: Step<Chain>)
    requires pos <= |data|
    ensures pos <= s.next <= |data|
    ensures s.result.Success? ==> pos < s.next
    decreases |data| - pos
  {
    if pos == |data| then Step(Failure(Truncated), pos)
    else
      var labelLen := data[pos];
      if labelLen == 0 then Step(Success(Chain(parts, None)), pos + 1)
      else if IsPointer(labelLen) then Step(Success(Chain(parts, Some(labelLen))), pos + 1)
      else
        var n := labelLen as int;
        if pos + 1 + n <= |data| then ChainAt(data, pos + 1 + n, parts + [data[pos + 1..pos + 1 + n]])
        else Step(Failure(Truncated), |data|)
  }

  /** `readPointer` with the first byte already read and the cursor on the second,
      in a chain that began at `start`: the name found at the target, with the
      cursor put back just past the pointer. */
  function PointerAt(data: Octets, start: nat, pos: nat, first: Byte): (s: Step<Octets>)
    requires start < pos <= |data|
    ensures pos <= s.next <= |data|
    decreases start, 0
  {
    if pos == |data| then Step(Failure(Truncated), pos)
    else
      var target := PointerTarget(first, data[pos]);
      if target >= start then Step(Failure(BadPointer), pos + 1)
      else Step(NameAt(data, target).result, pos + 1)
  }

  /** `decodeDomainName` from cursor `pos`: the labels joined with dots, the name
      behind a closing pointer being the last of them. */
  function NameAt(data: Octets, pos: nat): (s: Step<Octets>)
    requires pos <= |data|
    ensures pos <= s.next <= |data|
    decreases pos, 1
  {
    var c := ChainAt(data, pos, []);
    if c.result.Failure? then Step(Failure(c.result.error), c.next)
    else
      var parts := c.result.value.parts;
      match c.result.value.pointer
      case None => Step(Success(Join(parts)), c.next)
      case Some(first) =>
        var p := PointerAt(data, pos, c.next, first);
        Step(if p.result.Success? then Success(Join(parts + [p.result.value])) else Failure(p.result.error), p.next)
  }

  /** `decodeDomainName(reader)`. */
  method DecodeDomainName(r: ByteReader) returns (name: Result<Octets>)
    requires r.Valid()
    modifies r
    ensures r.Valid() && Step(name, r.pos) == NameAt(r.data, old(r.pos))
    decreases r.pos, 2
  {
    var start := r.pos;
    var parts: seq<Octets> := [];
    while true
      invariant r.Valid() && start <= r.pos
      invariant ChainAt(r.data, r.pos, parts) == ChainAt(r.data, start, [])
      decreases |r.data| - r.pos
    {
      var labelLen := r.ReadByte();
      if labelLen.Failure? {
        return Failure(labelLen.error);
      }
      if labelLen.value == 0 {
        return Success(Join(parts));
      }
      if IsPointer(labelLen.value) {
        var part := ReadPointer(r, labelLen.value, start);
        if part.Failure? {
          return Failure(part.error);
        }
        parts := parts + [part.value];
        return Success(Join(parts));
      }
      var labelBytes := r.ReadFull(labelLen.value as int);
      if labelBytes.Failure? {
        return Failure(labelBytes.error);
      }
      parts := parts + [labelBytes.value];
    }
  }

  /** `readPointer(reader, labelLen)`: reads the pointer's second byte, saves the
      cursor, seeks to the target, decodes the name there and restores the cursor
      (the Go code's deferred Seek). `start` is where the current chain began. */
  method ReadPointer(r: ByteReader, labelLen: Byte, start: nat) returns (name: Result<Octets>)
    requires r.Valid() && start < r.pos
    modifies r
    ensures r.Valid() && Step(name, r.pos) == PointerAt(r.data, start, old(r.pos), labelLen)
    decreases start, 0
  {
    var pointerByte := r.ReadByte();
    if pointerByte.Failure? {
      return Failure(pointerByte.error);
    }
    var pointer := PointerTarget(labelLen, pointerByte.value);
    var offset := r.pos;
    if pointer >= start {
      return Failure(BadPointer);
    }
    r.Seek(pointer);
    name := DecodeDomainName(r);
    r.Seek(offset);
  }

  // ---------------------------------------------------------------------------
  // Round trip
  // ---------------------------------------------------------------------------

  lemma LabelByte(lbl: Octets)
    requires ValidLabel(lbl)
    ensures var b := LengthByte(lbl); b != 0 && !IsPointer(b) && b as int == |lbl|
  {
  }

  /** One valid label at the cursor is read as itself and the loop goes on after it. */
  lemma ChainLabelStep(data: Octets, pos: nat, parts: seq<Octets>, lbl: Octets)
    requires ValidLabel(lbl) && At(data, pos, LabelWire(lbl))
    ensures ChainAt(data, pos, parts) == ChainAt(data, pos + 1 + |lbl|, parts + [lbl])
  {
    LabelByte(lbl);
    AtSlice(data, pos, LabelWire(lbl));
    assert data[pos] == LabelWire(lbl)[0];
    assert data[pos + 1..pos + 1 + |lbl|] == LabelWire(lbl)[1..];
  }

  lemma ValidLabelsTail(labels: seq<Octets>)
    requires labels != [] && ValidLabels(labels)
    ensures ValidLabel(labels[0]) && ValidLabels(labels[1..])
  {
    assert ValidLabel(labels[0]);
    forall i | 0 <= i < |labels[1..]| ensures ValidLabel(labels[1..][i]) {
      assert labels[1..][i] == labels[i + 1];
    }
  }

  lemma LabelsWireCons(labels: seq<Octets>)
    requires labels != []
    ensures LabelsWire(labels) + [0] == LabelWire(labels[0]) + (LabelsWire(labels[1..]) + [0])
  {
  }

  /** A run of labels at `pos` is its first label followed by the rest of the run. */
  lemma AtLabels(data: Octets, pos: nat, labels: seq<Octets>)
    requires labels != [] && At(data, pos, LabelsWire(labels) + [0])
    ensures At(data, pos, LabelWire(labels[0]))
    ensures At(data, pos + 1 + |labels[0]|, LabelsWire(labels[1..]) + [0])
    ensures |LabelsWire(labels)| == 1 + |labels[0]| + |LabelsWire(labels[1..])|
  {
    LabelsWireCons(labels);
    AtSplit(data, pos, LabelWire(labels[0]), LabelsWire(labels[1..]) + [0]);
  }

  /** A zero byte at the cursor ends the run. */
  lemma ChainEnd(data: Octets, pos: nat, parts: seq<Octets>)
    requires pos < |data| && data[pos] == 0
    ensures ChainAt(data, pos, parts) == Step(Success(Chain(parts, None)), pos + 1)
  {
  }

  /** Decoding a terminated run of valid labels, wherever it sits in the buffer,
      yields exactly those labels and consumes exactly the run. */
  lemma {:induction false} ChainRoundTrip(data: Octets, pos: nat, parts: seq<Octets>, labels: seq<Octets>)
    requires ValidLabels(labels) && At(data, pos, LabelsWire(labels) + [0])
    ensures ChainAt(data, pos, parts) == Step(Success(Chain(parts + labels, None)), pos + |LabelsWire(labels)| + 1)
    decreases labels
  {
    if labels == [] {
      assert data[pos] == (LabelsWire(labels) + [0])[0];
      ChainEnd(data, pos, parts);
      assert parts + labels == parts;
    } else {
      var l := labels[0];
      var next := pos + 1 + |l|;
      AtLabels(data, pos, labels);
      ValidLabelsTail(labels);
      calc {
        ChainAt(data, pos, parts);
        == { ChainLabelStep(data, pos, parts, l); }
        ChainAt(data, next, parts + [l]);
        == { ChainRoundTrip(data, next, parts + [l], labels[1..]); }
        Step(Success(Chain(parts + [l] + labels[1..], None)), next + |LabelsWire(labels[1..])| + 1);
        == { assert parts + [l] + labels[1..] == parts + labels; }
        Step(Success(Chain(parts + labels, None)), pos + |LabelsWire(labels)| + 1);
      }
    }
  }

  /** `decodeDomainName(encodeDomainName(name, true)) == name` for well-formed names,
      consuming exactly the encoding, wherever it sits in the message. */
  lemma NameRoundTrip(data: Octets, pos: nat, name: Octets)
    requires WellFormed(name) && At(data, pos, NameWire(name, true))
    ensures NameAt(data, pos) == Step(Success(name), pos + |NameWire(name, true)|)
  {
    ChainRoundTrip(data, pos, [], Split(name));
    assert [] + Split(name) == Split(name);
    JoinSplit(name);
  }

  /** A pointer byte at the start of a name ends the run at once; the name is the
      one the pointer leads to. */
  lemma NameViaPointer(data: Octets, pos: nat)
    requires pos < |data| && IsPointer(data[pos])
    ensures var p := PointerAt(data, pos, pos + 1, data[pos]);
      NameAt(data, pos) == Step(if p.result.Success? then Success(Join([p.result.value])) else Failure(p.result.error), p.next)
  {
    assert ChainAt(data, pos, []) == Step(Success(Chain([], Some(data[pos]))), pos + 1);
    var p := PointerAt(data, pos, pos + 1, data[pos]);
    if p.result.Success? {
      assert [] + [p.result.value] == [p.result.value];
    }
  }

  /** A pointer to an earlier copy of a name decodes to that name, and the cursor
      ends just past the two pointer bytes. */
  lemma PointerToEarlierName(data: Octets, pos: nat, name: Octets)
    requires pos + 1 < |data| && IsPointer(data[pos])
    requires PointerTarget(data[pos], data[pos + 1]) < pos
    requires WellFormed(name) && At(data, PointerTarget(data[pos], data[pos + 1]), NameWire(name, true))
    ensures NameAt(data, pos) == Step(Success(name), pos + 2)
  {
    var target := PointerTarget(data[pos], data[pos + 1]);
    NameRoundTrip(data, target, name);
    calc {
      NameAt(data, pos);
      == { NameViaPointer(data, pos); }
      Step(Success(Join([NameAt(data, target).result.value])), pos + 2);
      == { assert NameAt(data, target).result.value == name; }
      Step(Success(Join([name])), pos + 2);
    }
  }

  // ---------------------------------------------------------------------------
  // The decoder as the Go code has it: pointers are followed wherever they lead
  // ---------------------------------------------------------------------------

  /** `decodeDomainName` without the backward-pointer guard. The label loop is the
      same; a pointer is followed to any offset (Go's Seek accepts offsets past the
      end, where the next read fails). Every pointer hop costs one unit of `fuel`;
      None means the fuel ran out while the Go code would still be recursing. */
  function UnguardedNameAt(data: Octets, pos: nat, fuel: nat): (r: Option<Step<Octets>>)
    ensures r.Some? && r.value.result.Success? ==> pos < r.value.next <= |data|
    decreases fuel
  {
    if pos > |data| then Some(Step(Failure(Truncated), pos))
    else
      var c := ChainAt(data, pos, []);
      if c.result.Failure? then Some(Step(Failure(c.result.error), c.next))
      else
        var parts := c.result.value.parts;
        match c.result.value.pointer
        case None => Some(Step(Success(Join(parts)), c.next))
        case Some(first) =>
          if c.next == |data| then Some(Step(Failure(Truncated), c.next))
          else if fuel == 0 then None
          else
            match UnguardedNameAt(data, PointerTarget(first, data[c.next]), fuel - 1)
            case None => None
            case Some(inner) =>
              Some(Step(if inner.result.Success? then Success(Join(parts + [inner.result.value])) else Failure(inner.result.error), c.next + 1))
  }

  /** As written, a pointer to itself (C0 00 at offset 0) never returns, whatever
      the fuel: the Go code recurses until the stack overflows. */
  lemma {:induction false} SelfPointerNeverReturns(fuel: nat)
    ensures UnguardedNameAt([0xC0, 0x00], 0, fuel) == None
  {
    var data: Octets := [0xC0, 0x00];
    assert ChainAt(data, 0, []) == Step(Success(Chain([], Some(0xC0))), 1);
    assert PointerTarget(data[0], data[1]) == 0;
    if fuel > 0 {
      SelfPointerNeverReturns(fuel - 1);
    }
  }

  /** With the guard the same input fails at once with BadPointer. */
  lemma SelfPointerRejected()
    ensures NameAt([0xC0, 0x00], 0) == Step(Failure(BadPointer), 2)
  {
    var data: Octets := [0xC0, 0x00];
    assert ChainAt(data, 0, []) == Step(Success(Chain([], Some(0xC0))), 1);
    assert PointerTarget(data[0], data[1]) == 0;
  }

  /** Wherever the guarded decoder succeeds, the Go decoder returns the same name and
      cursor, given fuel for the hops (each hop moves strictly backwards, so
      `pos + 1` always suffices). */
  lemma {:induction false} GuardedAgrees(data: Octets, pos: nat, fuel: nat)
    requires pos <= |data| && fuel > pos
    requires NameAt(data, pos).result.Success?
    ensures UnguardedNameAt(data, pos, fuel) == Some(NameAt(data, pos))
    decreases pos
  {
    var c := ChainAt(data, pos, []);
    if c.result.value.pointer.Some? {
      var first := c.result.value.pointer.value;
      var target := PointerTarget(first, data[c.next]);
      assert target < pos && NameAt(data, target).result.Success?;
      GuardedAgrees(data, target, fuel - 1);
    }
  }

  /** A pointer strictly before itself is not enough: in 01 61 C0 00 the pointer at
      offset 2 leads back to offset 0, the start of its own chain, and the Go code
      never returns. */
  lemma {:induction false} ChainLoopNeverReturns(fuel: nat)
    ensures UnguardedNameAt([0x01, 0x61, 0xC0, 0x00], 0, fuel) == None
  {
    var data: Octets := [0x01, 0x61, 0xC0, 0x00];
    assert ChainAt(data, 2, [[0x61]]) == Step(Success(Chain([[0x61]], Some(0xC0))), 3);
    assert data[1..2] == [0x61] && [] + [data[1..2]] == [[0x61]];
    assert ChainAt(data, 0, []) == Step(Success(Chain([[0x61]], Some(0xC0))), 3);
    assert PointerTarget(data[2], data[3]) == 0;
    if fuel > 0 {
      ChainLoopNeverReturns(fuel - 1);
    }
  }

  /** The guarded decoder rejects the same input with BadPointer. */
  lemma ChainLoopRejected()
    ensures NameAt([0x01, 0x61, 0xC0, 0x00], 0) == Step(Failure(BadPointer), 4)
  {
    var data: Octets := [0x01, 0x61, 0xC0, 0x00];
    assert ChainAt(data, 2, [[0x61]]) == Step(Success(Chain([[0x61]], Some(0xC0))), 3);
    assert data[1..2] == [0x61] && [] + [data[1..2]] == [[0x61]];
    assert ChainAt(data, 0, []) == Step(Success(Chain([[0x61]], Some(0xC0))), 3);
    assert PointerTarget(data[2], data[3]) == 0;
  }

  /** The guard is stricter than termination needs: the forward pointer in
      C0 02 01 61 00 leads to the name "a", which the Go code returns, while the
      guarded decoder fails with BadPointer. */
  lemma ForwardPointerRejected()
    ensures UnguardedNameAt([0xC0, 0x02, 0x01, 0x61, 0x00], 0, 1) == Some(Step(Success([0x61]), 2))
    ensures NameAt([0xC0, 0x02, 0x01, 0x61, 0x00], 0) == Step(Failure(BadPointer), 2)
  {
    var data: Octets := [0xC0, 0x02, 0x01, 0x61, 0x00];
    assert ChainAt(data, 0, []) == Step(Success(Chain([], Some(0xC0))), 1);
    assert PointerTarget(data[0], data[1]) == 2;
    assert data[3..4] == [0x61] && [] + [data[3..4]] == [[0x61]];
    assert ChainAt(data, 4, [[0x61]]) == Step(Success(Chain([[0x61]], None)), 5);
    assert ChainAt(data, 2, []) == Step(Success(Chain([[0x61]], None)), 5);
    assert Join([[0x61]]) == [0x61];
    assert [] + [[0x61 as Byte]] == [[0x61]];
  }
}
