/**
  The byte-level vocabulary of the DNS codec: octets, big-endian integers,
  error kinds, and the two byte containers the Go code is written against,
  a read cursor over one immutable message buffer (`bytes.Reader`) and a
  growable output buffer (`bytes.Buffer`).

  Go's `byte`, `uint16` and `uint32` are modelled as integer newtypes of exactly
  those ranges; the big-endian conversions are written with division and
  remainder by powers of two, which is what Go's shifts and masks compute.
 */
module Wire {

  newtype Byte = x: int | 0 <= x < 0x100
  newtype U16 = x: int | 0 <= x < 0x1_0000
  newtype U32 = x: int | 0 <= x < 0x1_0000_0000
  type Octets = seq<Byte>

  /** Error kinds. The Go code reports errors as formatted text; only the kind is kept. */
  datatype Error =
    | Truncated               // the input ended before a field was complete
    | BadPointer              // a compression pointer that does not lead back before its chain
    | UnknownType(code: U16)  // ParseResource met a type code it does not dispatch
    | Panic                   // the Go code panics ("unimplemented")

  datatype Option<+T> = None | Some(value: T)

  datatype Result<+T> = Success(value: T) | Failure(error: Error)

  /** The outcome of reading one field, together with where the cursor is left. */
  datatype Step<+T> = Step(result: Result<T>, next: nat)

  /** What `bytes.Reader.Read` puts into a fresh `make([]byte, n)`: the bytes it could
      read followed by zeros, whether it reported io.EOF, and the new cursor. */
  datatype Chunk = Chunk(bytes: Octets, eof: bool, next: nat)

  // ---------------------------------------------------------------------------
  // Big-endian integers (encoding/binary.BigEndian)
  // ---------------------------------------------------------------------------

  /** `binary.BigEndian.PutUint16`: high byte first. */
  function U16Wire(x: U16): (r: Octets)
    ensures |r| == 2
  {
    [(x / 0x100) as Byte, (x % 0x100) as Byte]
  }

  /** `binary.BigEndian.Uint16`. */
  function U16Of(hi: Byte, lo: Byte): U16
  {
    (hi as int * 0x100 + lo as int) as U16
  }

  /** `binary.BigEndian.PutUint32`: the high half, then the low half. */
  function U32Wire(x: U32): (r: Octets)
    ensures |r| == 4
  {
    U16Wire((x / 0x1_0000) as U16) + U16Wire((x % 0x1_0000) as U16)
  }

  /** `binary.BigEndian.Uint32`. */
  function U32Of(b: Octets): U32
    requires |b| == 4
  {
    (U16Of(b[0], b[1]) as int * 0x1_0000 + U16Of(b[2], b[3]) as int) as U32
  }

  lemma U16RoundTrip(x: U16)
    ensures U16Of(U16Wire(x)[0], U16Wire(x)[1]) == x
  {
  }

  lemma U16Converse(hi: Byte, lo: Byte)
    ensures U16Wire(U16Of(hi, lo)) == [hi, lo]
  {
  }

  /** A value below 256 is a zero byte and then the value. */
  lemma U16WireOfByte(x: U16)
    requires x < 0x100
    ensures U16Wire(x) == [0, x as Byte]
  {
  }

  lemma U32RoundTrip(x: U32)
    ensures U32Of(U32Wire(x)) == x
  {
    var hi, lo := (x / 0x1_0000) as U16, (x % 0x1_0000) as U16;
    U16RoundTrip(hi);
    U16RoundTrip(lo);
    var w := U32Wire(x);
    assert w[0] == U16Wire(hi)[0] && w[1] == U16Wire(hi)[1] && w[2] == U16Wire(lo)[0] && w[3] == U16Wire(lo)[1];
  }

  /** Go's `uint16(n)` for a length: the length truncated to 16 bits. */
  function Len16(n: nat): U16
  {
    (n % 0x1_0000) as U16
  }

  function Zeros(n: nat): (z: Octets)
    ensures |z| == n && forall i :: 0 <= i < n ==> z[i] == 0
  {
    seq(n, _ => 0)
  }

  /** The input holds `s` from `pos` on, byte by byte. */
  predicate At(data: Octets, pos: nat, s: Octets)
    decreases |s|
  {
    pos + |s| <= |data| && (s == [] || (data[pos] == s[0] && At(data, pos + 1, s[1..])))
  }

  /** `At` is `data[pos..pos + |s|] == s`. */
  lemma {:induction false} AtSlice(data: Octets, pos: nat, s: Octets)
    ensures At(data, pos, s) <==> pos + |s| <= |data| && data[pos..pos + |s|] == s
    decreases |s|
  {
    if s != [] && pos + |s| <= |data| {
      AtSlice(data, pos + 1, s[1..]);
      if data[pos..pos + |s|] == s {
        assert data[pos + 1..pos + |s|] == data[pos..pos + |s|][1..];
      }
      if data[pos] == s[0] && data[pos + 1..pos + |s|] == s[1..] {
        assert data[pos..pos + |s|] == [data[pos]] + data[pos + 1..pos + |s|];
      }
    }
  }

  lemma AtJoin(data: Octets, pos: nat, s: Octets, t: Octets)
    requires At(data, pos, s) && At(data, pos + |s|, t)
    ensures At(data, pos, s + t)
  {
    AtSlice(data, pos, s + t);
    AtSlice(data, pos, s);
    AtSlice(data, pos + |s|, t);
    assert data[pos..pos + |s| + |t|] == data[pos..pos + |s|] + data[pos + |s|..pos + |s| + |t|];
  }

  /** Three pieces written one after another. */
  lemma AtSplit3(data: Octets, pos: nat, a: Octets, b: Octets, c: Octets)
    requires At(data, pos, a + b + c)
    ensures At(data, pos, a) && At(data, pos + |a|, b) && At(data, pos + |a| + |b|, c)
  {
    AtSplit(data, pos, a + b, c);
    AtSplit(data, pos, a, b);
  }

  /** Four pieces written one after another. */
  lemma AtSplit4(data: Octets, pos: nat, a: Octets, b: Octets, c: Octets, d: Octets)
    requires At(data, pos, a + b + c + d)
    ensures At(data, pos, a) && At(data, pos + |a|, b) && At(data, pos + |a| + |b|, c)
      && At(data, pos + |a| + |b| + |c|, d)
  {
    AtSplit(data, pos, a + b + c, d);
    AtSplit3(data, pos, a, b, c);
  }

  /** A buffer holds itself from its start. */
  lemma AtWhole(s: Octets)
    ensures At(s, 0, s)
  {
    AtSlice(s, 0, s);
  }

  lemma AtSplit(data: Octets, pos: nat, s: Octets, t: Octets)
    requires At(data, pos, s + t)
    ensures At(data, pos, s) && At(data, pos + |s|, t)
  {
    AtSlice(data, pos, s + t);
    AtSlice(data, pos, s);
    AtSlice(data, pos + |s|, t);
    assert data[pos..pos + |s|] == (s + t)[..|s|];
    assert data[pos + |s|..pos + |s| + |t|] == (s + t)[|s|..];
  }

  // ---------------------------------------------------------------------------
  // What each read of a bytes.Reader at cursor `pos` does
  // ---------------------------------------------------------------------------

  /** `ReadByte`: the byte at the cursor, or io.EOF with the cursor unchanged. */
  function ByteAt(data: Octets, pos: nat): (s: Step<Byte>)
    requires pos <= |data|
    ensures pos <= s.next <= |data|
    ensures s.result.Success? <==> pos < |data|
    ensures s.result.Success? ==> s.result.value == data[pos] && s.next == pos + 1
    ensures s.result.Failure? ==> s.next == pos
  {
    if pos < |data| then Step(Success(data[pos]), pos + 1) else Step(Failure(Truncated), pos)
  }

  /** `io.ReadFull` of n bytes: all of them, or an error after consuming what was left. */
  function FullAt(data: Octets, pos: nat, n: nat): (s: Step<Octets>)
    requires pos <= |data|
    ensures pos <= s.next <= |data|
    ensures s.result.Success? <==> pos + n <= |data|
    ensures s.result.Success? ==> s.result.value == data[pos..pos + n] && s.next == pos + n
    ensures s.result.Failure? ==> s.next == |data|
  {
    if pos + n <= |data| then Step(Success(data[pos..pos + n]), pos + n)
    else Step(Failure(Truncated), |data|)
  }

  /** `binary.Read(reader, binary.BigEndian, &x)` for a uint16. */
  function U16At(data: Octets, pos: nat): (s: Step<U16>)
    requires pos <= |data|
    ensures pos <= s.next <= |data|
    ensures pos < |data| ==> pos < s.next
    ensures s.result.Success? <==> pos + 2 <= |data|
    ensures s.result.Success? ==> s.next == pos + 2 && s.result.value == U16Of(data[pos], data[pos + 1])
    ensures s.result.Failure? ==> s.next == |data|
  {
    var f := FullAt(data, pos, 2);
    if f.result.Success? then Step(Success(U16Of(f.result.value[0], f.result.value[1])), f.next)
    else Step(Failure(f.result.error), f.next)
  }

  /** `binary.Read(reader, binary.BigEndian, &x)` for a uint32. */
  function U32At(data: Octets, pos: nat): (s: Step<U32>)
    requires pos <= |data|
    ensures pos <= s.next <= |data|
    ensures s.result.Success? <==> pos + 4 <= |data|
    ensures s.result.Success? ==> s.next == pos + 4 && s.result.value == U32Of(data[pos..pos + 4])
    ensures s.result.Failure? ==> s.next == |data|
  {
    var f := FullAt(data, pos, 4);
    if f.result.Success? then Step(Success(U32Of(f.result.value)), f.next)
    else Step(Failure(f.result.error), f.next)
  }

  /** `reader.Read(make([]byte, n))`: io.EOF only when nothing is left, otherwise
      min(n, remaining) bytes are copied and the rest of the slice stays zero. */
  function ReadAt(data: Octets, pos: nat, n: nat): (c: Chunk)
    requires pos <= |data|
    ensures |c.bytes| == n
    ensures c.eof <==> pos == |data|
    ensures c.next == pos + (if n <= |data| - pos then n else |data| - pos)
    ensures c.bytes == data[pos..c.next] + Zeros(n - (c.next - pos))
  {
    if pos == |data| then Chunk(Zeros(n), true, pos)
    else
      var k := if n <= |data| - pos then n else |data| - pos;
      Chunk(data[pos..pos + k] + Zeros(n - k), false, pos + k)
  }

  lemma U16AtWire(data: Octets, pos: nat, x: U16)
    requires At(data, pos, U16Wire(x))
    ensures U16At(data, pos) == Step(Success(x), pos + 2)
  {
    U16RoundTrip(x);
  }

  lemma U32AtWire(data: Octets, pos: nat, x: U32)
    requires At(data, pos, U32Wire(x))
    ensures U32At(data, pos) == Step(Success(x), pos + 4)
  {
    AtSlice(data, pos, U32Wire(x));
    U32RoundTrip(x);
  }

  // ---------------------------------------------------------------------------
  // bytes.Reader and bytes.Buffer
  // ---------------------------------------------------------------------------

  /** A read cursor over one immutable message buffer. Every decoder shares one reader,
      so where a failed or partial read leaves `pos` is part of the model. */
  class ByteReader {
    const data: Octets
    var pos: nat

    ghost predicate Valid()
      reads this
    {
      pos <= |data|
    }

    constructor (data: Octets)
      ensures Valid() && this.data == data && pos == 0
    {
      this.data := data;
      pos := 0;
    }

    /** `reader.Len()`: the number of unread bytes. */
    function Len(): (n: nat)
      reads this
      requires Valid()
      ensures n == |data| - pos
    {
      |data| - pos
    }

    method ReadByte() returns (b: Result<Byte>)
      requires Valid()
      modifies this
      ensures Valid() && Step(b, pos) == ByteAt(data, old(pos))
      ensures b.Success? <==> old(pos) < |data|
      ensures b.Success? ==> pos == old(pos) + 1 && b.value == data[old(pos)]
      ensures b.Failure? ==> b.error == Truncated && pos == old(pos)
    {
      var s := ByteAt(data, pos);
      b, pos := s.result, s.next;
    }

    method ReadFull(n: nat) returns (b: Result<Octets>)
      requires Valid()
      modifies this
      ensures Valid() && Step(b, pos) == FullAt(data, old(pos), n)
    {
      if pos + n <= |data| {
        b, pos := Success(data[pos..pos + n]), pos + n;
      } else {
        b, pos := Failure(Truncated), |data|;
      }
    }

    method ReadU16() returns (x: Result<U16>)
      requires Valid()
      modifies this
      ensures Valid() && Step(x, pos) == U16At(data, old(pos))
      ensures x.Success? <==> old(pos) + 2 <= |data|
      ensures x.Success? ==> pos == old(pos) + 2 && x.value == U16Of(data[old(pos)], data[old(pos) + 1])
      ensures x.Failure? ==> x.error == Truncated && pos == |data|
    {
      var b := ReadFull(2);
      if b.Success? {
        x := Success(U16Of(b.value[0], b.value[1]));
      } else {
        x := Failure(b.error);
      }
    }

    method ReadU32() returns (x: Result<U32>)
      requires Valid()
      modifies this
      ensures Valid() && Step(x, pos) == U32At(data, old(pos))
    {
      var b := ReadFull(4);
      if b.Success? {
        x := Success(U32Of(b.value));
      } else {
        x := Failure(b.error);
      }
    }

    method Read(n: nat) returns (b: Octets, eof: bool)
      requires Valid()
      modifies this
      ensures Valid() && Chunk(b, eof, pos) == ReadAt(data, old(pos), n)
    {
      if pos == |data| {
        b, eof := Zeros(n), true;
      } else {
        var k := if n <= |data| - pos then n else |data| - pos;
        b, eof, pos := data[pos..pos + k] + Zeros(n - k), false, pos + k;
      }
    }

    /** `reader.Seek(offset, io.SeekStart)`, used only to follow a pointer into the
        buffer and to come back from it. */
    method Seek(offset: nat)
      requires offset <= |data|
      modifies this
      ensures Valid() && pos == offset
    {
      pos := offset;
    }
  }

  /** A growable output buffer; every write appends. */
  class Buffer {
    var bytes: Octets

    constructor ()
      ensures bytes == []
    {
      bytes := [];
    }

    method WriteByte(b: Byte)
      modifies this
      ensures bytes == old(bytes) + [b]
    {
      bytes := bytes + [b];
    }

    method Write(b: Octets)
      modifies this
      ensures bytes == old(bytes) + b
    {
      bytes := bytes + b;
    }

    /** `binary.Write(&buf, binary.BigEndian, x)` for a uint16. */
    method WriteU16(x: U16)
      modifies this
      ensures bytes == old(bytes) + U16Wire(x)
    {
      bytes := bytes + U16Wire(x);
    }

    /** `binary.Write(&buf, binary.BigEndian, x)` for a uint32. */
    method WriteU32(x: U32)
      modifies this
      ensures bytes == old(bytes) + U32Wire(x)
    {
      bytes := bytes + U32Wire(x);
    }
  }

  /** A byte as the eight bits Go's `uint8` operators see, highest bit first. */
  function Bits(b: Byte): (x: bv8)
  {
    var n7 := b as int;
    var n6 := if n7 >= 128 then n7 - 128 else n7;
    var n5 := if n6 >= 64 then n6 - 64 else n6;
    var n4 := if n5 >= 32 then n5 - 32 else n5;
    var n3 := if n4 >= 16 then n4 - 16 else n4;
    var n2 := if n3 >= 8 then n3 - 8 else n3;
    var n1 := if n2 >= 4 then n2 - 4 else n2;
    var n0 := if n1 >= 2 then n1 - 2 else n1;
    (if n7 >= 128 then 0x80 else 0) | (if n6 >= 64 then 0x40 else 0)
    | (if n5 >= 32 then 0x20 else 0) | (if n4 >= 16 then 0x10 else 0)
    | (if n3 >= 8 then 0x08 else 0) | (if n2 >= 4 then 0x04 else 0)
    | (if n1 >= 2 then 0x02 else 0) | (if n0 >= 1 then 0x01 else 0)
  }

  /** The byte whose bits are `x`. */
  function ValueOf(x: bv8): Byte
  {
    (if x & 0x80 != 0 then 128 else 0) + (if x & 0x40 != 0 then 64 else 0)
    + (if x & 0x20 != 0 then 32 else 0) + (if x & 0x10 != 0 then 16 else 0)
    + (if x & 0x08 != 0 then 8 else 0) + (if x & 0x04 != 0 then 4 else 0)
    + (if x & 0x02 != 0 then 2 else 0) + (if x & 0x01 != 0 then 1 else 0)
  }

  /** Reading a byte as bits and back gives the byte. */
  lemma ValueOfBits(b: Byte)
    ensures ValueOf(Bits(b)) == b
  {
  }

  /** Reading eight bits as a byte and back gives the bits. */
  lemma BitsOfValue(x: bv8)
    ensures Bits(ValueOf(x)) == x
  {
  }
}
