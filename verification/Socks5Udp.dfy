/** socks5_udp.go: datagrams wrapped in the header of section 7 of RFC 1928. */
module Socks5Udp {
  import opened Bytes
  import opened Wrappers

  const MAX_PACKET_SIZE: nat := 65535
  const MAX_HEADER_SIZE: nat := 22

  type Ip = seq<Byte>

  datatype UdpAddr = UdpAddr(ip: Ip, port: int)

  // Addresses as Go's net package has them

  const MAPPED_PREFIX: Ip := [0, 0, 0, 0, 0, 0, 0, 0, 0, 0, 255, 255]

  predicate IsMapped(ip: Ip) {
    |ip| == 16 && ip[..12] == MAPPED_PREFIX
  }

  function To4(ip: Ip): Option<Ip> {
    if |ip| == 4 then Some(ip)
    else if IsMapped(ip) then Some(ip[12..])
    else None
  }

  /** An IP of another length has no 16-byte form. */
  function To16(ip: Ip): Ip {
    if |ip| == 4 then MAPPED_PREFIX + ip
    else if |ip| == 16 then ip
    else []
  }

  predicate IpEqual(a: Ip, b: Ip) {
    if |a| == |b| then a == b
    else if |a| == 4 && |b| == 16 then IsMapped(b) && a == b[12..]
    else |a| == 16 && |b| == 4 && IsMapped(a) && b == a[12..]
  }

  /** Equal addresses are those whose shortest forms are the same. */
  lemma EqualMeansSameShortForm(a: Ip, b: Ip)
    requires |a| in {4, 16} && |b| in {4, 16}
    ensures IpEqual(a, b) <==> To4(a).GetOr(a) == To4(b).GetOr(b)
  {
    if IsMapped(a) && IsMapped(b) {
      assert a == a[..12] + a[12..] && b == b[..12] + b[12..];
    }
  }

  // The header

  function AddressBytes(ip: Ip): Ip {
    To4(ip).GetOr(To16(ip))
  }

  function AddressType(ip: Ip): Byte {
    if To4(ip).Some? then 1 else 4
  }

  function Header(addr: UdpAddr): seq<Byte> {
    [0, 0, 0, AddressType(addr.ip)] + AddressBytes(addr.ip) + Be16(addr.port % 65536)
  }

  /** The header byte by byte: two reserved zero bytes, fragment zero, the type, the address in its shortest
      form, and the port with its high byte first. An IP of another length goes without an address. */
  lemma HeaderOnTheWire(addr: UdpAddr)
    ensures var ip, port := addr.ip, addr.port % 65536;
            var tail: seq<Byte> := [port / 256, port % 256];
            && (|ip| == 4 ==> Header(addr) == [0, 0, 0, 1] + ip + tail)
            && (|ip| == 16 && ip[..12] == [0, 0, 0, 0, 0, 0, 0, 0, 0, 0, 255, 255] ==>
                  Header(addr) == [0, 0, 0, 1] + ip[12..] + tail)
            && (|ip| == 16 && ip[..12] != [0, 0, 0, 0, 0, 0, 0, 0, 0, 0, 255, 255] ==>
                  Header(addr) == [0, 0, 0, 4] + ip + tail)
            && (|ip| != 4 && |ip| != 16 ==> Header(addr) == [0, 0, 0, 4] + tail)
  {
    var port := addr.port % 65536;
    assert Be16(port) == [port / 256, port % 256];
    hide Be16;
  }

  /** Section 7 of RFC 1928: reserved bytes, no fragment, a numeric address of the announced type, a
      port. */
  ghost predicate IsHeader(data: seq<Byte>, addr: UdpAddr, offset: nat) {
    && |addr.ip| in {4, 16} && offset == 4 + |addr.ip| + 2 <= |data|
    && data[2] == 0 && data[3] == (if |addr.ip| == 4 then 1 else 4)
    && data[4..4 + |addr.ip|] == addr.ip
    && addr.port == FromBe16(data[offset - 2], data[offset - 1])
  }

  datatype DecodeError = TooShort | Fragmented | TooShortForIpv4 | TooShortForIpv6 | DomainName | UnknownType

  datatype Decoded = Decoded(addr: UdpAddr, dataOffset: nat) | Refused(error: DecodeError)

  ghost predicate Decodes(data: seq<Byte>, r: Decoded) {
    match r
    case Decoded(addr, dataOffset) => IsHeader(data, addr, dataOffset)
    case Refused(error) =>
      && (forall addr, offset :: !IsHeader(data, addr, offset))
      && match error
         case TooShort => |data| < 4
         case Fragmented => |data| >= 4 && data[2] != 0
         case TooShortForIpv4 => 4 <= |data| < 10 && data[2] == 0 && data[3] == 1
         case TooShortForIpv6 => 4 <= |data| < 22 && data[2] == 0 && data[3] == 4
         case DomainName => |data| >= 4 && data[2] == 0 && data[3] == 3
         case UnknownType => |data| >= 4 && data[2] == 0 && data[3] !in {1, 3, 4}
  }

  lemma OneDecoding(data: seq<Byte>, a: Decoded, b: Decoded)
    requires Decodes(data, a) && Decodes(data, b)
    ensures a == b
  {
    if a.Decoded? { HeaderIsNotRefused(data, a.addr, a.dataOffset); }
    if b.Decoded? { HeaderIsNotRefused(data, b.addr, b.dataOffset); }
  }

  lemma HeaderIsNotRefused(data: seq<Byte>, addr: UdpAddr, offset: nat)
    requires IsHeader(data, addr, offset)
    ensures forall error :: !Decodes(data, Refused(error))
  {
  }

  /** The type of the address, and the address. */
  method EncodeAddress(dst: array<Byte>, ip: Ip) returns (offset: nat)
    requires dst.Length >= MAX_HEADER_SIZE
    modifies dst
    ensures offset == 4 + |AddressBytes(ip)| <= MAX_HEADER_SIZE - 2
    ensures dst[..offset] == old(dst[..3]) + [AddressType(ip)] + AddressBytes(ip)
    ensures dst[offset..] == old(dst[offset..])
  {
    var copied;
    var ip4 := To4(ip);
    if ip4.Some? {
      dst[3] := 1;
      copied := Copy(dst, 4, ip4.value);
    } else {
      dst[3] := 4;
      copied := Copy(dst, 4, To16(ip));
    }
    offset := 4 + copied;
    assert dst[..offset] == dst[..4] + dst[4..4 + copied];
  }

  /** encodeSocks5UDPHeader: whatever the buffer held, its front is the header and the rest stays. */
  method EncodeHeader(dst: array<Byte>, addr: UdpAddr) returns (n: nat)
    requires dst.Length >= MAX_HEADER_SIZE
    modifies dst
    ensures n == |Header(addr)| <= MAX_HEADER_SIZE
    ensures dst[..n] == Header(addr) && dst[n..] == old(dst[n..])
  {
    hide AddressBytes, AddressType, Be16;
    dst[0], dst[1], dst[2] := 0, 0, 0;
    assert dst[..3] == [0, 0, 0];
    var offset := EncodeAddress(dst, addr.ip);
    ghost var front := dst[..offset];
    assert front == [0, 0, 0, AddressType(addr.ip)] + AddressBytes(addr.ip);
    var copied := Copy(dst, offset, Be16(addr.port % 65536));
    n := offset + 2;
    assert dst[..n] == dst[..offset] + dst[offset..n];
  }

  /** Go's copy, into the buffer from `offset` on. */
  method Copy(dst: array<Byte>, offset: nat, src: seq<Byte>) returns (n: nat)
    requires offset <= dst.Length
    modifies dst
    ensures n == if |src| <= dst.Length - offset then |src| else dst.Length - offset
    ensures dst[offset..offset + n] == src[..n]
    ensures dst[..offset] == old(dst[..offset]) && dst[offset + n..] == old(dst[offset + n..])
  {
    n := if |src| <= dst.Length - offset then |src| else dst.Length - offset;
    forall k | 0 <= k < n {
      dst[offset + k] := src[k];
    }
  }

  /** decodeSocks5UDPHeader */
  method DecodeHeader(data: seq<Byte>) returns (r: Decoded)
    ensures Decodes(data, r)
    ensures r.Decoded? <==> |data| >= 10 && data[2] == 0 && (data[3] == 1 || (data[3] == 4 && |data| >= 22))
    ensures r.Decoded? ==>
              r == if data[3] == 1 then Decoded(UdpAddr(data[4..8], 256 * (data[8] as int) + data[9]), 10)
                   else Decoded(UdpAddr(data[4..20], 256 * (data[20] as int) + data[21]), 22)
  {
    if |data| < 4 {
      return Refused(TooShort);
    }
    if data[2] != 0 {
      return Refused(Fragmented);
    }
    var atyp, offset, ip := data[3], 4, [];
    if atyp == 1 {
      if |data| < offset + 4 + 2 {
        return Refused(TooShortForIpv4);
      }
      ip := data[offset..offset + 4];
      offset := offset + 4;
    } else if atyp == 4 {
      if |data| < offset + 16 + 2 {
        return Refused(TooShortForIpv6);
      }
      ip := data[offset..offset + 16];
      offset := offset + 16;
    } else if atyp == 3 {
      return Refused(DomainName);
    } else {
      return Refused(UnknownType);
    }
    if |data| < offset + 2 {
      // Both branches have already asked for the port.
      assert false;
    }
    var port := FromBe16(data[offset], data[offset + 1]);
    return Decoded(UdpAddr(ip, port), offset + 2);
  }

  /** An encapsulated datagram decodes to its payload and an equal address exactly when the address has
      one of the two lengths an IP can have and the port fits its field. */
  lemma RoundTrip(addr: UdpAddr, payload: seq<Byte>, r: Decoded)
    requires Decodes(Header(addr) + payload, r)
    ensures r.Decoded? && IpEqual(r.addr.ip, addr.ip) && r.addr.port == addr.port
                       && (Header(addr) + payload)[r.dataOffset..] == payload
            <==> |addr.ip| in {4, 16} && 0 <= addr.port < 65536
    ensures |addr.ip| in {4, 16} ==> r == Decoded(UdpAddr(AddressBytes(addr.ip), addr.port % 65536), |Header(addr)|)
  {
    if |addr.ip| in {4, 16} {
      HeaderDecodes(addr, payload);
      OneDecoding(Header(addr) + payload, r,
                  Decoded(UdpAddr(AddressBytes(addr.ip), addr.port % 65536), |Header(addr)|));
      ShortFormIsEqual(addr.ip);
    }
  }

  lemma ShortFormIsEqual(ip: Ip)
    requires |ip| in {4, 16}
    ensures IpEqual(AddressBytes(ip), ip)
  {
  }

  lemma HeaderDecodes(addr: UdpAddr, payload: seq<Byte>)
    requires |addr.ip| in {4, 16}
    ensures IsHeader(Header(addr) + payload, UdpAddr(AddressBytes(addr.ip), addr.port % 65536), |Header(addr)|)
  {
    var ip, port := AddressBytes(addr.ip), Be16(addr.port % 65536);
    var data := Header(addr) + payload;
    var front: seq<Byte> := [0, 0, 0, AddressType(addr.ip)];
    assert data == front + (ip + (port + payload));
    hide AddressBytes, AddressType;
    assert data[4..4 + |ip|] == ip;
    assert data[4 + |ip|] == port[0] && data[5 + |ip|] == port[1];
    Be16RoundTrip(addr.port % 65536);
  }

  // The packet connection

  datatype WriteResult = Written(n: nat, datagram: seq<Byte>) | NotUdp | TooLarge | SendError

  /** WriteTo, on a buffer from the pool. A payload is sent whole or not at all. */
  method WriteTo(buf: array<Byte>, p: seq<Byte>, addr: Option<UdpAddr>, sendOk: bool) returns (r: WriteResult)
    requires buf.Length == MAX_PACKET_SIZE
    modifies buf
    ensures r == if addr.None? then NotUdp
                 else if |p| > MAX_PACKET_SIZE - MAX_HEADER_SIZE then TooLarge
                 else if !sendOk then SendError
                 else Written(|p|, Header(addr.value) + p)
    ensures r.Written? ==> |r.datagram| <= MAX_PACKET_SIZE
    ensures r.Written? ==>
              var ip, port := addr.value.ip, addr.value.port % 65536;
              var tail: seq<Byte> := [port / 256, port % 256];
              && (|ip| == 4 ==> r.datagram == [0, 0, 0, 1] + ip + tail + p)
              && (IsMapped(ip) ==> r.datagram == [0, 0, 0, 1] + ip[12..] + tail + p)
              && (|ip| == 16 && !IsMapped(ip) ==> r.datagram == [0, 0, 0, 4] + ip + tail + p)
  {
    if addr.Some? { HeaderOnTheWire(addr.value); }
    hide Header;
    if addr.None? {
      return NotUdp;
    }
    if |p| > MAX_PACKET_SIZE - MAX_HEADER_SIZE {
      return TooLarge;
    }
    var headerLen := EncodeHeader(buf, addr.value);
    var payloadLen := Copy(buf, headerLen, p);
    if !sendOk {
      return SendError;
    }
    assert buf[..headerLen + payloadLen] == Header(addr.value) + p;
    return Written(payloadLen, buf[..headerLen + payloadLen]);
  }

  /** A datagram at the local socket; the runtime may not know where it came from. */
  datatype Datagram = Datagram(src: Option<Ip>, data: seq<Byte>)

  /** What a read into a buffer of the pool leaves of it. */
  function Received(d: Datagram): seq<Byte> {
    if |d.data| <= MAX_PACKET_SIZE then d.data else d.data[..MAX_PACKET_SIZE]
  }

  ghost predicate Accepted(d: Datagram, relay: Ip) {
    && (d.src.Some? ==> IpEqual(d.src.value, relay))
    && exists addr, offset :: IsHeader(Received(d), addr, offset)
  }

  ghost predicate FirstAccepted(incoming: seq<Datagram>, relay: Ip, k: nat) {
    k < |incoming| && Accepted(incoming[k], relay) && forall i | 0 <= i < k :: !Accepted(incoming[i], relay)
  }

  datatype ReadResult = Read(n: nat, addr: UdpAddr) | ReadError

  /** One turn of the loop: a datagram is read into the buffer, and dropped or decoded. */
  method ReadOne(buf: array<Byte>, relay: Ip, d: Datagram) returns (n: nat, decoded: Option<Decoded>)
    requires buf.Length == MAX_PACKET_SIZE
    modifies buf
    ensures n <= buf.Length && buf[..n] == Received(d)
    ensures decoded.None? ==> !Accepted(d, relay)
    ensures decoded.Some? ==> Accepted(d, relay) && decoded.value.Decoded? && Decodes(Received(d), decoded.value)
    ensures decoded.Some? <==>
              && (d.src.None? || IpEqual(d.src.value, relay))
              && n >= 10 && buf[2] == 0 && (buf[3] == 1 || (buf[3] == 4 && n >= 22))
    ensures n == if |d.data| <= 65535 then |d.data| else 65535
    ensures buf[..n] == d.data[..n]
  {
    n := Copy(buf, 0, d.data);
    assert buf[..n] == buf[0..0 + n] == Received(d);
    if d.src.Some? && !IpEqual(d.src.value, relay) {
      return n, None;
    }
    var r := DecodeHeader(buf[..n]);
    if r.Refused? {
      return n, None;
    }
    assert IsHeader(Received(d), r.addr, r.dataOffset);
    return n, Some(r);
  }

  /** ReadFrom: the datagrams of `incoming` arrive one by one, and then the socket fails. */
  method ReadFrom(buf: array<Byte>, p: array<Byte>, relay: Ip, incoming: seq<Datagram>)
    returns (r: ReadResult, ghost k: nat)
    requires buf.Length == MAX_PACKET_SIZE && p != buf
    modifies buf, p
    ensures r.Read? ==>
              && FirstAccepted(incoming, relay, k) && r.n <= p.Length
              && IsHeader(Received(incoming[k]), r.addr, 6 + |r.addr.ip|)
              && (incoming[k].src.Some? ==> IpEqual(incoming[k].src.value, relay))
              && var payload := Received(incoming[k])[6 + |r.addr.ip|..];
                 && r.n == (if |payload| <= p.Length then |payload| else p.Length)
                 && p[..r.n] == payload[..r.n] && p[r.n..] == old(p[r.n..])
    ensures r.ReadError? ==> p[..] == old(p[..]) && forall d <- incoming :: !Accepted(d, relay)
  {
    hide Accepted, IpEqual;
    for next := 0 to |incoming|
      invariant p[..] == old(p[..])
      invariant forall i | 0 <= i < next :: !Accepted(incoming[i], relay)
    {
      var n, decoded := ReadOne(buf, relay, incoming[next]);
      if decoded.Some? {
        var found := decoded.value;
        assert buf[found.dataOffset..n] == Received(incoming[next])[found.dataOffset..];
        var m := Copy(p, 0, buf[found.dataOffset..n]);
        return Read(m, found.addr), next;
      }
    }
    return ReadError, 0;
  }

  lemma FirstBehindStrays(strays: seq<Datagram>, d: Datagram, rest: seq<Datagram>, relay: Ip, k: nat)
    requires Accepted(d, relay) && forall s <- strays :: !Accepted(s, relay)
    requires FirstAccepted(strays + [d] + rest, relay, k)
    ensures k == |strays| && (strays + [d] + rest)[k] == d
  {
    hide Accepted;
    var all := strays + [d] + rest;
    assert forall i | 0 <= i < |strays| :: all[i] == strays[i];
    assert all[|strays|] == d;
  }

  /** What WriteTo puts into a datagram is what ReadFrom takes out of it, whatever strays arrive first. */
  lemma TunnelDelivers(strays: seq<Datagram>, d: Datagram, rest: seq<Datagram>, relay: Ip, addr: UdpAddr, p: seq<Byte>,
                       k: nat, got: UdpAddr, offset: nat)
    requires |addr.ip| in {4, 16} && 0 <= addr.port < 65536 && |p| <= MAX_PACKET_SIZE - MAX_HEADER_SIZE
    requires d.data == Header(addr) + p && (d.src.Some? ==> IpEqual(d.src.value, relay))
    requires forall s <- strays :: !Accepted(s, relay)
    requires FirstAccepted(strays + [d] + rest, relay, k)
    requires IsHeader(Received((strays + [d] + rest)[k]), got, offset)
    ensures k == |strays| && IpEqual(got.ip, addr.ip) && got.port == addr.port && Received(d)[offset..] == p
  {
    var sent := UdpAddr(AddressBytes(addr.ip), addr.port);
    HeaderDecodes(addr, p);
    assert Received(d) == Header(addr) + p;
    hide Header, IsHeader, AddressBytes, Received;
    assert IsHeader(Received(d), sent, |Header(addr)|);
    assert Accepted(d, relay);
    FirstBehindStrays(strays, d, rest, relay, k);
    OneDecoding(Received(d), Decoded(got, offset), Decoded(sent, |Header(addr)|));
    ShortFormIsEqual(addr.ip);
  }
}
