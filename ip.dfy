/**
  IP addresses as the A and AAAA records see them. The Go code turns payload bytes
  into text with `net.IP(data).String()` and text back into bytes with
  `net.ParseIP(text).To4()` or `.To16()`. Those library functions are not part of
  this model; the text is kept abstract instead: an address is shown either as
  the dotted-quad text of four bytes, as the colon text of sixteen bytes, or as
  text that names no address. The two conversions below follow the library's
  case split (IPv4-mapped addresses print as dotted quads, section 2.5.5.2 of
  RFC 4291) without fixing any character-level format.
 */
module Addresses {
  import opened Wire

  /** The text form of an address. */
  datatype IpText =
    | Dotted(quad: Octets)      // "a.b.c.d"
    | Colon(address: Octets)    // IPv6 text of a 16-byte address that is not IPv4-mapped
    | NotAnAddress(raw: Octets) // "<nil>", "?" + hex, or any text ParseIP rejects

  /** The twelve bytes in front of an IPv4 address embedded in IPv6. */
  const V4InV6Prefix: Octets := [0, 0, 0, 0, 0, 0, 0, 0, 0, 0, 0xFF, 0xFF]

  predicate IsV4Mapped(b: Octets)
  {
    |b| == 16 && b[..12] == V4InV6Prefix
  }

  /** `net.IP(b).String()`. */
  function IpString(b: Octets): (t: IpText)
    ensures |b| == 4 ==> t == Dotted(b)
    ensures |b| == 16 && !IsV4Mapped(b) ==> t == Colon(b)
    ensures |b| != 4 && |b| != 16 ==> t.NotAnAddress?
  {
    if |b| == 4 then Dotted(b)
    else if IsV4Mapped(b) then Dotted(b[12..])
    else if |b| == 16 then Colon(b)
    else NotAnAddress(b)
  }

  /** `net.ParseIP(t)`: the 16-byte form, or nil for text that names no address. */
  function ParseIp(t: IpText): (ip: Option<Octets>)
    ensures ip.Some? ==> |ip.value| == 16
    ensures t.NotAnAddress? ==> ip == None
  {
    match t
    case Dotted(q) => if |q| == 4 then Some(V4InV6Prefix + q) else None
    case Colon(a) => if |a| == 16 then Some(a) else None
    case NotAnAddress(_) => None
  }

  /** `ip.To4()`, with the nil slice as the empty sequence. */
  function To4(ip: Option<Octets>): (b: Octets)
    ensures |b| == 0 || |b| == 4
  {
    match ip
    case None => []
    case Some(a) => if |a| == 4 then a else if IsV4Mapped(a) then a[12..] else []
  }

  /** `ip.To16()`, with the nil slice as the empty sequence. */
  function To16(ip: Option<Octets>): (b: Octets)
    ensures |b| == 0 || |b| == 16
  {
    match ip
    case None => []
    case Some(a) => if |a| == 4 then V4InV6Prefix + a else if |a| == 16 then a else []
  }

  /** Parsing the text of a 4- or 16-byte address gives its 16-byte form back. */
  lemma ParseIpString(b: Octets)
    requires |b| == 4 || |b| == 16
    ensures ParseIp(IpString(b)) == Some(if |b| == 4 then V4InV6Prefix + b else b)
  {
    if IsV4Mapped(b) {
      assert b == V4InV6Prefix + b[12..];
    }
  }

  /** Four bytes shown as text and parsed back as IPv4 are the same four bytes. */
  lemma V4RoundTrip(b: Octets)
    requires |b| == 4
    ensures To4(ParseIp(IpString(b))) == b
  {
    ParseIpString(b);
    assert (V4InV6Prefix + b)[..12] == V4InV6Prefix;
    assert (V4InV6Prefix + b)[12..] == b;
  }

  /** Sixteen bytes shown as text and parsed back as IPv6 are the same sixteen bytes. */
  lemma V6RoundTrip(b: Octets)
    requires |b| == 16
    ensures To16(ParseIp(IpString(b))) == b
  {
    ParseIpString(b);
  }

  /** Text that names an IPv4 address gives four bytes; any other text that is not
      an IPv4-mapped IPv6 address gives none. */
  lemma To4OfText(t: IpText)
    ensures |To4(ParseIp(t))| == 4 <==>
      (t.Dotted? && |t.quad| == 4) || (t.Colon? && IsV4Mapped(t.address))
  {
    if t.Dotted? && |t.quad| == 4 {
      assert (V4InV6Prefix + t.quad)[..12] == V4InV6Prefix;
    }
  }

  /** Text that names an address of either family gives sixteen bytes. */
  lemma To16OfText(t: IpText)
    ensures |To16(ParseIp(t))| == 16 <==>
      (t.Dotted? && |t.quad| == 4) || (t.Colon? && |t.address| == 16)
  {
  }

  /** "127.0.0.1" becomes 7F 00 00 01. */
  lemma Loopback()
    ensures To4(ParseIp(Dotted([127, 0, 0, 1]))) == [0x7F, 0x00, 0x00, 0x01]
  {
    V4RoundTrip([127, 0, 0, 1]);
  }
}
