/** The SOCKS5 CONNECT request: the bytes the proxy sends upstream, and its own reading of a
    client's request (section 4 of RFC 1928). */
module Socks5 {
  import opened Bytes

  const BUFFER := 512

  datatype Host = Domain(name: seq<byte>) | Ipv4(octets: seq<byte>)

  /** What a request leads to: a connection, a reply with an error code, or a silent close. */
  datatype Request = Connect(host: Host, port: nat) | Refused(code: byte) | Closed

  /** The request sent for a domain name; its length travels in one byte, truncated to fit. */
  function BuildConnect(host: seq<byte>, port: nat): seq<byte>
    requires port < 0x1_0000
  {
    [5, 1, 0, 3, (|host| % 256) as byte] + host + Be16(port)
  }

  /** The reading of the bytes received. */
  function ParseRequest(buf: seq<byte>): Request {
    var n := |buf|;
    if n < 7 || buf[0] != 5 then Closed
    else if buf[3] == 1 then
      if n < 10 then Closed
      else if buf[1] != 1 then Refused(7)
      else Connect(Ipv4(buf[4..8]), U16(buf, 8))
    else if buf[3] == 3 then
      var dlen := buf[4] as int;
      if n < 5 + dlen + 2 then Closed
      else if buf[1] != 1 then Refused(7)
      else Connect(Domain(buf[5..5 + dlen]), U16(buf, 5 + dlen))
    else Refused(8)
  }

  /** One receive into the fixed buffer. */
  function Received(bytes: seq<byte>): seq<byte> {
    if |bytes| <= BUFFER then bytes else bytes[..BUFFER]
  }

  /** The request for a name and a port is read back as that name and port, from one buffer, exactly
      when the name has at most 255 bytes. */
  lemma {:induction false} ConnectRoundTrip(host: seq<byte>, port: nat)
    requires port < 0x1_0000
    ensures ParseRequest(Received(BuildConnect(host, port))) == Connect(Domain(host), port) <==> |host| <= 255
    ensures BuildConnect(host, port)[..4] == [5, 1, 0, 3]
  {
    var bytes := BuildConnect(host, port);
    var buf := Received(bytes);
    assert bytes[..5] == [5, 1, 0, 3, (|host| % 256) as byte];
    assert forall i :: 0 <= i < 5 ==> buf[i] == bytes[..5][i];
    if |host| <= 255 {
      assert buf == bytes;
      assert bytes[5..5 + |host|] == host;
      assert bytes[5 + |host|..5 + |host| + 2] == Be16(port);
      U16Reads(bytes, 5 + |host|, port);
    } else {
      var r := ParseRequest(buf);
      assert r.Connect? && r.host.Domain? ==> |r.host.name| < 256;
    }
  }

  /** Two names that both fit never produce the same request with the same port. */
  lemma {:induction false} ConnectInjective(h1: seq<byte>, p1: nat, h2: seq<byte>, p2: nat)
    requires p1 < 0x1_0000 && p2 < 0x1_0000 && |h1| <= 255 && |h2| <= 255
    requires BuildConnect(h1, p1) == BuildConnect(h2, p2)
    ensures h1 == h2 && p1 == p2
  {
    ConnectRoundTrip(h1, p1);
    ConnectRoundTrip(h2, p2);
  }

  // ---- what the reader makes of every request ----

  /** The request for an IPv4 address: its four octets and the port, high byte first, whatever the
      reserved byte and the bytes behind it; cut anywhere before its end it is not answered. */
  lemma Ipv4RoundTrip(reserved: byte, octets: seq<byte>, high: byte, low: byte, trailing: seq<byte>, k: nat)
    requires |octets| == 4 && k < 10
    ensures var bytes := [5, 1, reserved, 1] + octets + [high, low];
            && ParseRequest(bytes + trailing) == Connect(Ipv4(octets), 256 * (high as int) + low as int)
            && ParseRequest(bytes[..k]) == Closed
  {
    var bytes := [5, 1, reserved, 1] + octets + [high, low];
    assert (bytes + trailing)[4..8] == octets;
  }

  /** Likewise for a name: the length byte, the name, the port, high byte first. */
  lemma NameRoundTrip(reserved: byte, name: seq<byte>, high: byte, low: byte, trailing: seq<byte>, k: nat)
    requires |name| <= 255 && k < 7 + |name|
    ensures var bytes := [5, 1, reserved, 3, |name| as byte] + name + [high, low];
            && ParseRequest(bytes + trailing) == Connect(Domain(name), 256 * (high as int) + low as int)
            && ParseRequest(bytes[..k]) == Closed
  {
    var bytes := [5, 1, reserved, 3, |name| as byte] + name + [high, low];
    assert (bytes + trailing)[5..5 + |name|] == name;
  }

  /** Complete requests of another kind: a command other than CONNECT is refused with code 7, an address
      type other than IPv4 and name with code 8 whatever the command. */
  lemma Refusals(command: byte, reserved: byte, kind: byte, body: seq<byte>)
    requires |body| >= 3
    ensures var r := ParseRequest([5, command, reserved, kind] + body);
            && (kind != 1 && kind != 3 ==> r == Refused(8))
            && (kind == 1 && |body| >= 6 && command != 1 ==> r == Refused(7))
            && (kind == 3 && |body| >= 3 + body[0] as int && command != 1 ==> r == Refused(7))
  {
  }

  /** Requests of another version, and requests of fewer than seven bytes, are dropped. */
  lemma Dropped(buf: seq<byte>)
    requires |buf| < 7 || buf[0] != 5
    ensures ParseRequest(buf) == Closed
  {
  }

  /** A connection is made for nothing but a CONNECT request: the bytes read spell the host and port. */
  lemma ConnectedOnly(buf: seq<byte>)
    requires ParseRequest(buf).Connect?
    ensures |buf| >= 7 && buf[0] == 5 && buf[1] == 1
    ensures match ParseRequest(buf)
            case Connect(Ipv4(octets), port) =>
              |octets| == 4 && |buf| >= 10
              && buf[3..10] == [1] + octets + [(port / 256) as byte, (port % 256) as byte]
            case Connect(Domain(name), port) =>
              |name| <= 255 && |buf| >= 7 + |name| && port < 0x1_0000
              && buf[3..7 + |name|] == [3, |name| as byte] + name + [(port / 256) as byte, (port % 256) as byte]
            case _ => false
  {
  }
}
