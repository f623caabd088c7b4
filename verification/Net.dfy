/** Addresses as Go's net package represents them: an IP is a slice of 4 or 16
    bytes (or an empty one), and an IPv4 address has two spellings. */
module Net {
  import opened Wrappers

  type byte = bv8

  lemma {:induction false} ByteWith(n: nat) returns (b: byte)
    requires n < 0x100
    ensures b as nat == n && n as byte == b
  {
    if n == 0 {
      b := 0;
    } else {
      b := ByteWith(n - 1);
      b := b + 1;
    }
  }

  lemma ByteOfNat(n: nat)
    requires n < 0x100
    ensures (n as byte) as nat == n
  {
    var b := ByteWith(n);
  }

  type IP = seq<byte>

  const V4_IN_V6_PREFIX: seq<byte> := [0, 0, 0, 0, 0, 0, 0, 0, 0, 0, 0xff, 0xff]

  datatype UDPAddr = UDPAddr(ip: IP, port: int)

  /** A STUN, HTTP or QUIC server of the configuration. */
  datatype ServerEndpoint = ServerEndpoint(host: string, port: int)

  /** What a STUN query yields (stunResult): the transaction ID, the mapped
      address, the server asked, and the address the response came from. */
  datatype StunResult = StunResult(tid: seq<byte>, ip: IP, port: int, server: string, source: Option<UDPAddr>)

  const ZERO_RESULT := StunResult([], [], 0, "", None)

  /** net.IP.Equal: an IPv4 address equals its IPv4-in-IPv6 form. */
  predicate IPEqual(a: IP, b: IP) {
    if |a| == |b| then a == b
    else if |a| == 4 && |b| == 16 then b[..12] == V4_IN_V6_PREFIX && b[12..] == a
    else if |a| == 16 && |b| == 4 then a[..12] == V4_IN_V6_PREFIX && a[12..] == b
    else false
  }

  /** The shortest spelling of an address. */
  function Canonical(ip: IP): IP {
    if |ip| == 16 && ip[..12] == V4_IN_V6_PREFIX then ip[12..] else ip
  }

  /** Four bytes are spelt as they are, and so is anything else that is not their
      IPv4-in-IPv6 form; that form is spelt as its last four bytes. */
  lemma CanonicalSpellings(ip: IP)
    ensures |ip| == 4 ==> Canonical(ip) == ip && Canonical([0, 0, 0, 0, 0, 0, 0, 0, 0, 0, 0xff, 0xff] + ip) == ip
    ensures Canonical(ip) != ip ==>
              |Canonical(ip)| == 4 && ip == [0, 0, 0, 0, 0, 0, 0, 0, 0, 0, 0xff, 0xff] + Canonical(ip)
  {
    if |ip| == 4 {
      var long := [0, 0, 0, 0, 0, 0, 0, 0, 0, 0, 0xff, 0xff] + ip;
      assert long[..12] == V4_IN_V6_PREFIX && long[12..] == ip;
    }
    if |ip| == 16 {
      assert ip == ip[..12] + ip[12..];
    }
  }

  /** net.IP.Equal compares shortest spellings, so it is an equivalence relation. */
  lemma IPEqualIffCanonical(a: IP, b: IP)
    ensures IPEqual(a, b) <==> Canonical(a) == Canonical(b)
  {
  }

  /** samePublicProbeResult: two samples agree on address and port. */
  predicate SameMapping(a: StunResult, b: StunResult) {
    a.port == b.port && IPEqual(a.ip, b.ip)
  }

  /** Two samples agree exactly if the port numbers and the shortest spellings of
      the addresses are equal; so agreement is an equivalence relation. */
  lemma SameMappingMeans(a: StunResult, b: StunResult)
    ensures SameMapping(a, b) <==> a.port == b.port && Canonical(a.ip) == Canonical(b.ip)
  {
    IPEqualIffCanonical(a.ip, b.ip);
  }

  lemma SameMappingIsEquivalence(a: StunResult, b: StunResult, c: StunResult)
    ensures SameMapping(a, a)
    ensures SameMapping(a, b) ==> SameMapping(b, a)
    ensures SameMapping(a, b) && SameMapping(b, c) ==> SameMapping(a, c)
  {
    SameMappingMeans(a, b);
    SameMappingMeans(b, c);
    SameMappingMeans(a, c);
  }

  // ----- Bytewise XOR

  function XorBytes(a: seq<byte>, b: seq<byte>): (r: seq<byte>)
    requires |a| == |b|
    ensures |r| == |a| && forall i :: 0 <= i < |a| ==> r[i] == a[i] ^ b[i]
  {
    seq(|a|, i requires 0 <= i < |a| => a[i] ^ b[i])
  }

  /** XOR in place, as parseMappedAddress and pbkdf2Key do it. */
  method XorInto(t: array<byte>, u: seq<byte>)
    requires t.Length == |u|
    modifies t
    ensures t[..] == XorBytes(old(t[..]), u)
  {
    for j := 0 to t.Length
      invariant forall k :: 0 <= k < j ==> t[k] == old(t[k]) ^ u[k]
      invariant forall k :: j <= k < t.Length ==> t[k] == old(t[k])
    {
      t[j] := t[j] ^ u[j];
    }
  }

  lemma XorTwice(a: seq<byte>, b: seq<byte>)
    requires |a| == |b|
    ensures XorBytes(XorBytes(a, b), b) == a
  {
  }
}
