/** net.IP: a byte slice that may hold 4 bytes, 16 bytes, or something unusable. */
module NetIP {
  import opened GoBase
  import opened GoStrings

  type Bytes = seq<byte>
  type IP = Bytes

  /** ::ffff:0:0/96, under which Go stores IPv4 addresses in 16-byte form. */
  const V4_PREFIX: Bytes := [0, 0, 0, 0, 0, 0, 0, 0, 0, 0, 0xFF, 0xFF]

  /** IP.To4; None is nil. */
  function To4(ip: IP): (r: Option<Bytes>)
    ensures r.Some? ==> |r.value| == 4
  {
    if |ip| == 4 then Some(ip)
    else if |ip| == 16 && ip[..12] == V4_PREFIX then Some(ip[12..])
    else None
  }

  /** IP.To16. */
  function To16(ip: IP): (r: Option<Bytes>)
    ensures r.Some? ==> |r.value| == 16
  {
    if |ip| == 4 then Some(V4_PREFIX + ip) else if |ip| == 16 then Some(ip) else None
  }

  /** IP.Equal: an IPv4 address and its 16-byte form are the same address. */
  predicate Equal(a: IP, b: IP) {
    if |a| == |b| then a == b
    else if |a| == 4 && |b| == 16 then b[..12] == V4_PREFIX && a == b[12..]
    else if |a| == 16 && |b| == 4 then a[..12] == V4_PREFIX && b == a[12..]
    else false
  }

  /** The address itself, whichever form it is stored in; what IP.String prints. */
  function Canon(ip: IP): Bytes {
    if To4(ip).Some? then To4(ip).value else ip
  }

  /** An IPv4 address, by its bytes: four of them, or sixteen in the form that Go stores IPv4 in. */
  predicate IsV4(ip: IP) {
    |ip| == 4 || (|ip| == 16 && ip[..12] == [0, 0, 0, 0, 0, 0, 0, 0, 0, 0, 255, 255])
  }

  /** Any other sixteen bytes. */
  predicate IsV6(ip: IP) {
    |ip| == 16 && !IsV4(ip)
  }

  /** The bytes an address has on the wire. */
  function Wire(ip: IP): Bytes {
    if IsV4(ip) then ip[|ip| - 4..] else ip
  }

  lemma FormsExactly(ip: IP)
    ensures To4(ip) == if IsV4(ip) then Some(Wire(ip)) else None
    ensures To4(ip).None? ==> To16(ip) == if IsV6(ip) then Some(Wire(ip)) else None
    ensures Canon(ip) == Wire(ip)
  {
    assert |ip| == 4 ==> ip[0..] == ip;
  }

  lemma EqualIsCanon(a: IP, b: IP)
    ensures Equal(a, b) <==> Canon(a) == Canon(b)
  {
    if |a| == 16 && |b| == 16 {
      assert a == a[..12] + a[12..] && b == b[..12] + b[12..];
    }
  }
}

/** The vocabulary that the NAT manager shares with its callers. */
module NatTypes {
  import opened GoBase
  import opened NetIP

  datatype Family = V4 | V6

  /** Backend address and port. */
  datatype Target = Target(ip: IP, port: uint16)

  predicate KnownProto(proto: string) {
    proto == "tcp" || proto == "udp"
  }
}
