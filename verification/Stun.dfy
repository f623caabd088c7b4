/** STUN messages (RFC 8489): parseSTUN and parseMappedAddress against a
    reference encoder of Binding success responses. */
module Stun {
  import opened Net
  import opened Wrappers

  const MAGIC: seq<byte> := [0x21, 0x12, 0xA4, 0x42]
  const BINDING_REQUEST: u16 := 0x0001
  const BINDING_SUCCESS: u16 := 0x0101
  const MAPPED_ADDRESS: u16 := 0x0001
  const XOR_MAPPED_ADDRESS: u16 := 0x0020

  datatype StunError =
    | ShortPacket | UnexpectedType | InvalidLength | InvalidMagic | InvalidAttribute
    | MappedMissing | ShortMapped | ShortIPv4 | UnknownFamily

  // ----- Numbers in network byte order

  type u16 = n: nat | n < 0x1_0000

  function Put16(v: u16): (b: seq<byte>)
    ensures |b| == 2
  {
    [(v / 0x100) as byte, (v % 0x100) as byte]
  }

  function Get16(b: seq<byte>): u16
    requires |b| == 2
  {
    (b[0] as nat) * 0x100 + b[1] as nat
  }

  lemma GetPut16(v: u16)
    ensures Get16(Put16(v)) == v
  {
    ByteOfNat(v / 0x100);
    ByteOfNat(v % 0x100);
  }

  lemma PutGet16(b: seq<byte>)
    requires |b| == 2
    ensures Put16(Get16(b)) == b
  {
    assert Get16(b) / 0x100 == b[0] as int;
    assert Get16(b) % 0x100 == b[1] as int;
  }

  /** The port XOR of section 14.2: with the high half of the magic cookie. */
  function XorPort(port: u16): u16 {
    Get16(XorBytes(Put16(port), MAGIC[..2]))
  }

  lemma XorPortTwice(port: u16)
    ensures XorPort(XorPort(port)) == port
  {
    hide Put16, Get16, XorBytes;
    PutGet16(XorBytes(Put16(port), MAGIC[..2]));
    XorTwice(Put16(port), MAGIC[..2]);
    GetPut16(port);
  }

  // ----- What the decoder computes

  /** parseMappedAddress */
  function MappedAddress(attrType: u16, value: seq<byte>): Result<(IP, u16), StunError> {
    if |value| < 4 then Err(ShortMapped)
    else if value[1] != 0x01 then Err(UnknownFamily)
    else if |value| < 8 then Err(ShortIPv4)
    else if attrType == XOR_MAPPED_ADDRESS then
      Ok((XorBytes(value[4..8], MAGIC), XorPort(Get16(value[2..4]))))
    else Ok((value[4..8], Get16(value[2..4])))
  }

  /** The offset of the attribute that follows one ending at `end`. */
  function Align(end: nat): (next: nat)
    ensures end <= next < end + 4 && next % 4 == 0
  {
    if end % 4 == 0 then end else end + 4 - end % 4
  }

  /** The walk over the attributes of a body, from offset pos. */
  function Walk(body: seq<byte>, pos: nat): Result<(IP, u16), StunError>
    decreases |body| - pos
  {
    if pos + 4 > |body| then Err(MappedMissing)
    else
      var attrType := Get16(body[pos..pos + 2]);
      var valueStart := pos + 4;
      var valueEnd := valueStart + Get16(body[pos + 2..pos + 4]);
      if valueEnd > |body| then Err(InvalidAttribute)
      else if IsMapped(attrType) then MappedAddress(attrType, body[valueStart..valueEnd])
      else Walk(body, Align(valueEnd))
  }

  predicate IsMapped(attrType: u16) {
    attrType == MAPPED_ADDRESS || attrType == XOR_MAPPED_ADDRESS
  }

  /** The transaction ID joins what the walk finds. */
  function Stamp(tid: seq<byte>, mapped: Result<(IP, u16), StunError>): Result<StunResult, StunError> {
    match mapped
    case Err(e) => Err(e)
    case Ok(m) => Ok(StunResult(tid, m.0, m.1, "", None))
  }

  function Parse(packet: seq<byte>): Result<StunResult, StunError> {
    if |packet| < 20 then Err(ShortPacket)
    else if Get16(packet[0..2]) != BINDING_SUCCESS then Err(UnexpectedType)
    else
      var length := Get16(packet[2..4]);
      if 20 + length > |packet| then Err(InvalidLength)
      else if packet[4..8] != MAGIC then Err(InvalidMagic)
      else
        Stamp(packet[8..20], Walk(packet[20..20 + length], 0))
  }

  // ----- The code

  /** parseSTUN */
  method ParseSTUN(packet: seq<byte>) returns (r: Result<StunResult, StunError>)
    ensures r == Parse(packet)
  {
    hide MappedAddress, Get16;
    if |packet| < 20 {
      return Err(ShortPacket);
    }
    if Get16(packet[0..2]) != BINDING_SUCCESS {
      return Err(UnexpectedType);
    }
    var length := Get16(packet[2..4]);
    if 20 + length > |packet| {
      return Err(InvalidLength);
    }
    if packet[4..8] != MAGIC {
      return Err(InvalidMagic);
    }
    var tid := packet[8..20];
    var body := packet[20..20 + length];
    var pos := 0;
    while pos + 4 <= |body|
      invariant Walk(body, pos) == Walk(body, 0)
      decreases |body| - pos
    {
      var attrType := Get16(body[pos..pos + 2]);
      var attrLen := Get16(body[pos + 2..pos + 4]);
      var valueStart := pos + 4;
      var valueEnd := valueStart + attrLen;
      if valueEnd > |body| {
        return Err(InvalidAttribute);
      }
      var value := body[valueStart..valueEnd];
      if attrType == MAPPED_ADDRESS || attrType == XOR_MAPPED_ADDRESS {
        var mapped := ParseMappedAddress(attrType, value);
        match mapped
        case Err(e) => return Err(e);
        case Ok(m) => return Ok(StunResult(tid, m.0, m.1, "", None));
      }
      pos := valueEnd;
      var rem := pos % 4;
      if rem != 0 {
        pos := pos + 4 - rem;
      }
    }
    return Err(MappedMissing);
  }

  /** parseMappedAddress: the address is copied and XORed in place. */
  method ParseMappedAddress(attrType: u16, value: seq<byte>) returns (r: Result<(IP, u16), StunError>)
    ensures r == MappedAddress(attrType, value)
  {
    hide Get16, Put16, XorPort, XorBytes;
    if |value| < 4 {
      return Err(ShortMapped);
    }
    var family := value[1];
    var port := Get16(value[2..4]);
    if attrType == XOR_MAPPED_ADDRESS {
      port := XorPort(port);
    }
    if family != 0x01 {
      return Err(UnknownFamily);
    }
    if |value| < 8 {
      return Err(ShortIPv4);
    }
    var ip := new byte[4](i requires 0 <= i < 4 => value[4 + i]);
    assert ip[..] == value[4..8];
    if attrType == XOR_MAPPED_ADDRESS {
      XorInto(ip, MAGIC);
    }
    return Ok((ip[..], port));
  }

  /** stunRequest, given the random transaction ID. */
  method StunRequest(tid: seq<byte>) returns (msg: seq<byte>)
    requires |tid| == 12
    ensures msg == [0x00, 0x01, 0x00, 0x00, 0x21, 0x12, 0xA4, 0x42] + tid
  {
    RequestKind();
    hide Put16;
    var buf := new byte[20](_ => 0);
    var kind := Put16(BINDING_REQUEST);
    buf[0], buf[1] := kind[0], kind[1];
    buf[4], buf[5], buf[6], buf[7] := MAGIC[0], MAGIC[1], MAGIC[2], MAGIC[3];
    for i := 0 to 12
      invariant buf[..8] == [0x00, 0x01, 0x00, 0x00, 0x21, 0x12, 0xA4, 0x42]
      invariant buf[8..8 + i] == tid[..i]
    {
      buf[8 + i] := tid[i];
    }
    assert buf[..] == buf[..8] + buf[8..8 + 12];
    return buf[..];
  }

  lemma RequestKind()
    ensures Put16(BINDING_REQUEST) == [0x00, 0x01]
  {
  }

  // ----- The formats, byte by byte

  /** The high byte comes first. */
  function PortOf(high: byte, low: byte): u16 {
    256 * (high as nat) + low as nat
  }

  lemma Get16Bytes(b: seq<byte>)
    requires |b| == 2
    ensures Get16(b) == PortOf(b[0], b[1])
  {
  }

  /** Address and port in the eight bytes of an IPv4 address attribute. */
  function AddressBytes(xor: bool, w: seq<byte>): (IP, u16)
    requires |w| == 8
  {
    if xor then
      ([w[4] ^ 0x21, w[5] ^ 0x12, w[6] ^ 0xA4, w[7] ^ 0x42], PortOf(w[2] ^ 0x21, w[3] ^ 0x12))
    else ([w[4], w[5], w[6], w[7]], PortOf(w[2], w[3]))
  }

  /** Sections 14.1 and 14.2: in an XOR-MAPPED-ADDRESS (code 0x0020) port and address
      are masked with 21 12 and 21 12 a4 42; in a MAPPED-ADDRESS (code 0x0001) they
      are not. Other families and shorter values are refused. */
  lemma MappedAddressBytes(attrType: u16, v: seq<byte>)
    ensures MappedAddress(attrType, v).Ok? <==> |v| >= 8 && v[1] == 0x01
    ensures |v| >= 8 && v[1] == 0x01 ==> MappedAddress(attrType, v) == Ok(AddressBytes(attrType == 0x0020, v[..8]))
  {
    if |v| >= 8 && v[1] == 0x01 {
      AddressParts(v);
      hide Get16, XorPort, XorBytes, AddressBytes;
    }
  }

  lemma AddressParts(v: seq<byte>)
    requires |v| >= 8
    ensures AddressBytes(false, v[..8]) == (v[4..8], Get16(v[2..4]))
    ensures AddressBytes(true, v[..8]) == (XorBytes(v[4..8], MAGIC), XorPort(Get16(v[2..4])))
  {
    PlainParts(v);
    MaskedParts(v);
    hide Get16, XorPort, XorBytes, AddressBytes;
  }

  lemma PlainParts(v: seq<byte>)
    requires |v| >= 8
    ensures AddressBytes(false, v[..8]) == (v[4..8], Get16(v[2..4]))
  {
    assert v[4..8] == [v[4], v[5], v[6], v[7]];
    Get16Bytes(v[2..4]);
    hide Get16, PortOf;
  }

  lemma MaskedParts(v: seq<byte>)
    requires |v| >= 8
    ensures AddressBytes(true, v[..8]) == (XorBytes(v[4..8], MAGIC), XorPort(Get16(v[2..4])))
  {
    hide Get16, XorPort, XorBytes, PortOf;
    XorPortBytes(v[2..4]);
    XorAddressBytes(v[4..8]);
  }

  lemma XorAddressBytes(b: seq<byte>)
    requires |b| == 4
    ensures XorBytes(b, MAGIC) == [b[0] ^ 0x21, b[1] ^ 0x12, b[2] ^ 0xA4, b[3] ^ 0x42]
  {
  }

  lemma XorPortBytes(b: seq<byte>)
    requires |b| == 2
    ensures XorPort(Get16(b)) == PortOf(b[0] ^ 0x21, b[1] ^ 0x12)
  {
    PutGet16(b);
    hide Put16, Get16, PortOf;
    Get16Bytes(XorBytes(b, MAGIC[..2]));
  }

  /** What an accepted packet begins with. */
  lemma AcceptedHeader(packet: seq<byte>)
    requires Parse(packet).Ok?
    ensures |packet| >= 20 && packet[0..2] == [0x01, 0x01] && packet[4..8] == [0x21, 0x12, 0xA4, 0x42]
    ensures Parse(packet).value.tid == packet[8..20]
    ensures 20 + 256 * (packet[2] as nat) + packet[3] as nat <= |packet|
  {
  }

  /** A whole response with one address attribute, for every ID, address and port. */
  lemma OneAttributeResponse(tid: seq<byte>, xor: bool, v: seq<byte>)
    requires |tid| == 12 && |v| == 8 && v[1] == 0x01
    ensures var packet := [0x01, 0x01, 0x00, 0x0C, 0x21, 0x12, 0xA4, 0x42] + tid +
                          [0x00, if xor then 0x20 else 0x01, 0x00, 0x08] + v;
            Parse(packet) == Ok(StunResult(tid, AddressBytes(xor, v).0, AddressBytes(xor, v).1, "", None))
  {
    var attribute := [0x00, if xor then 0x20 else 0x01, 0x00, 0x08];
    var packet := [0x01, 0x01, 0x00, 0x0C, 0x21, 0x12, 0xA4, 0x42] + tid + attribute + v;
    assert packet[0..2] == [0x01, 0x01] && packet[2..4] == [0x00, 0x0C] && packet[4..8] == MAGIC;
    assert packet[8..20] == tid && packet[20..32] == attribute + v;
    OneAttributeBody(xor, v);
    Get16Bytes([0x01, 0x01]);
    Get16Bytes([0x00, 0x0C]);
    hide Walk, Get16, AddressBytes, Parse;
    ParseFields(packet, 12);
  }

  lemma OneAttributeBody(xor: bool, v: seq<byte>)
    requires |v| == 8 && v[1] == 0x01
    ensures Walk([0x00, if xor then 0x20 else 0x01, 0x00, 0x08] + v, 0) == Ok(AddressBytes(xor, v))
  {
    var body := [0x00, if xor then 0x20 else 0x01, 0x00, 0x08] + v;
    assert body[0..2] == [0x00, if xor then 0x20 else 0x01] && body[2..4] == [0x00, 0x08] && body[4..12] == v;
    Get16Bytes(body[0..2]);
    Get16Bytes(body[2..4]);
    MappedAddressBytes(if xor then 0x0020 else 0x0001, v);
    assert v[..8] == v;
    WalkStep(body, 0);
    hide MappedAddress, AddressBytes, Walk, Get16;
  }

  /** The example of an address 192.0.2.1 and port 32853. */
  lemma ExampleAddress()
    ensures MappedAddress(0x0020, [0x00, 0x01, 0xA1, 0x47, 0xE1, 0x12, 0xA6, 0x43]) == Ok(([192, 0, 2, 1], 32853))
  {
    var v := [0x00, 0x01, 0xA1, 0x47, 0xE1, 0x12, 0xA6, 0x43];
    MappedAddressBytes(0x0020, v);
    assert v[..8] == v;
    hide MappedAddress;
  }

  // ----- The reference encoder

  /** An attribute with its padding, whose content receivers ignore (section 14). */
  datatype Attribute = Attribute(kind: u16, value: seq<byte>, padding: seq<byte>) {
    ghost predicate Valid() {
      |value| < 0x1_0000 && |padding| == Align(|value|) - |value|
    }
  }

  /** The address attribute: MAPPED-ADDRESS (section 14.1) or XOR-MAPPED-ADDRESS
      (section 14.2), with a first octet that receivers ignore. `extra` is what a
      sender may put after the IPv4 address. */
  datatype AddressAttribute = AddressAttribute(xor: bool, first: byte, extra: seq<byte>)

  function EncodeAttribute(a: Attribute): seq<byte>
    requires |a.value| < 0x1_0000
  {
    Put16(a.kind) + Put16(|a.value|) + a.value + a.padding
  }

  function EncodeAttributes(attrs: seq<Attribute>): seq<byte>
    requires forall k :: 0 <= k < |attrs| ==> |attrs[k].value| < 0x1_0000
  {
    if attrs == [] then [] else EncodeAttribute(attrs[0]) + EncodeAttributes(attrs[1..])
  }

  function AddressValue(a: AddressAttribute, ip: seq<byte>, port: u16): seq<byte>
    requires |ip| == 4
  {
    [a.first, 0x01] + Put16(if a.xor then XorPort(port) else port) +
    (if a.xor then XorBytes(ip, MAGIC) else ip) + a.extra
  }

  function AddressKind(a: AddressAttribute): u16 {
    if a.xor then XOR_MAPPED_ADDRESS else MAPPED_ADDRESS
  }

  function EncodeAddress(a: AddressAttribute, ip: seq<byte>, port: u16): seq<byte>
    requires |ip| == 4 && 8 + |a.extra| < 0x1_0000
  {
    Put16(AddressKind(a)) + Put16((8 + |a.extra|)) + AddressValue(a, ip, port)
  }

  /** A Binding success response (section 5): header, the attributes before the
      first address, the address, whatever follows it in the body, and bytes
      beyond the declared length. */
  function EncodeResponse(tid: seq<byte>, before: seq<Attribute>, a: AddressAttribute, ip: seq<byte>, port: u16,
                          after: seq<byte>, beyond: seq<byte>): seq<byte>
    requires Encodable(tid, before, a, ip, port, after)
  {
    var body := EncodeAttributes(before) + EncodeAddress(a, ip, port) + after;
    Put16(BINDING_SUCCESS) + Put16(|body|) + MAGIC + tid + body + beyond
  }

  ghost predicate Ignorable(attrs: seq<Attribute>) {
    forall k :: 0 <= k < |attrs| ==> attrs[k].Valid() && !IsMapped(attrs[k].kind)
  }

  ghost predicate Encodable(tid: seq<byte>, before: seq<Attribute>, a: AddressAttribute, ip: seq<byte>, port: u16,
                            after: seq<byte>)
  {
    && |tid| == 12 && |ip| == 4
    && Ignorable(before)
    && 8 + |a.extra| < 0x1_0000
    && |EncodeAttributes(before)| + |EncodeAddress(a, ip, port)| + |after| < 0x1_0000
  }

  // ----- Walking over attributes

  lemma AlignShift(n: nat, end: nat)
    requires n % 4 == 0
    ensures Align(n + end) == n + Align(end)
  {
  }

  lemma WalkStep(body: seq<byte>, pos: nat)
    ensures Walk(body, pos) ==
            if pos + 4 > |body| then Err(MappedMissing)
            else
              var end := pos + 4 + Get16(body[pos + 2..pos + 4]);
              if end > |body| then Err(InvalidAttribute)
              else if IsMapped(Get16(body[pos..pos + 2])) then
                MappedAddress(Get16(body[pos..pos + 2]), body[pos + 4..end])
              else Walk(body, Align(end))
  {
    hide Get16, MappedAddress, IsMapped, Align;
  }

  /** Where the walk starts does not matter, as long as it starts aligned. */
  lemma {:induction false} WalkShift(p: seq<byte>, s: seq<byte>, pos: nat)
    requires |p| % 4 == 0
    ensures Walk(p + s, |p| + pos) == Walk(s, pos)
    decreases |s| - pos
  {
    hide Get16, MappedAddress, IsMapped, Walk, Align;
    var body := p + s;
    WalkStep(s, pos);
    WalkStep(body, |p| + pos);
    if pos + 4 <= |s| {
      assert body[|p| + pos..|p| + pos + 2] == s[pos..pos + 2];
      assert body[|p| + pos + 2..|p| + pos + 4] == s[pos + 2..pos + 4];
      var end := pos + 4 + Get16(s[pos + 2..pos + 4]);
      if end <= |s| {
        assert body[|p| + pos + 4..|p| + end] == s[pos + 4..end];
        AlignShift(|p|, end);
        WalkShift(p, s, Align(end));
      }
    }
  }

  /** The first attribute of a body, when the body holds it whole. */
  lemma WalkFirst(kind: u16, value: seq<byte>, rest: seq<byte>)
    requires |value| < 0x1_0000
    ensures var body := Put16(kind) + Put16(|value|) + value + rest;
            Walk(body, 0) == if IsMapped(kind) then MappedAddress(kind, value) else Walk(body, Align(4 + |value|))
  {
    hide Put16, Get16;
    var body := Put16(kind) + Put16(|value|) + value + rest;
    GetPut16(kind);
    GetPut16(|value|);
    assert body[0..2] == Put16(kind);
    assert body[2..4] == Put16(|value|);
    assert body[4..4 + |value|] == value;
  }

  lemma {:induction false} WalkSkips(before: seq<Attribute>, rest: seq<byte>)
    requires Ignorable(before)
    ensures |EncodeAttributes(before)| % 4 == 0
    ensures Walk(EncodeAttributes(before) + rest, 0) == Walk(rest, 0)
  {
    hide Put16, Get16, Walk, MappedAddress;
    if before == [] {
      assert EncodeAttributes(before) + rest == rest;
    } else {
      var a := before[0];
      assert a.Valid() && !IsMapped(a.kind);
      var first := EncodeAttribute(a);
      var tail := EncodeAttributes(before[1..]) + rest;
      assert EncodeAttributes(before) == first + EncodeAttributes(before[1..]);
      WalkSkips(before[1..], rest);
      WalkFirst(a.kind, a.value, a.padding + tail);
      assert |first| == Align(4 + |a.value|);
      assert EncodeAttributes(before) + rest == first + tail;
      assert first + tail == Put16(a.kind) + Put16(|a.value|) + a.value + (a.padding + tail);
      WalkShift(first, tail, 0);
    }
  }

  lemma AddressDecodes(a: AddressAttribute, ip: seq<byte>, port: u16)
    requires |ip| == 4
    ensures MappedAddress(AddressKind(a), AddressValue(a, ip, port)) == Ok((ip, port))
  {
    var value := AddressValue(a, ip, port);
    var p := if a.xor then XorPort(port) else port;
    GetPut16(p);
    XorPortTwice(port);
    XorTwice(ip, MAGIC);
    assert value[2..4] == Put16(p);
    assert value[4..8] == if a.xor then XorBytes(ip, MAGIC) else ip;
  }

  // ----- The decoder inverts the encoder

  /** Whatever attributes come first, whatever follows the address, and whatever
      lies beyond the declared length: the decoder returns the transaction ID
      and the encoded address. */
  lemma DecodeEncoded(tid: seq<byte>, before: seq<Attribute>, a: AddressAttribute, ip: seq<byte>, port: u16,
                      after: seq<byte>, beyond: seq<byte>)
    requires Encodable(tid, before, a, ip, port, after)
    ensures Parse(EncodeResponse(tid, before, a, ip, port, after, beyond)) == Ok(StunResult(tid, ip, port, "", None))
  {
    hide Put16, Get16;
    var address := EncodeAddress(a, ip, port);
    var body := EncodeAttributes(before) + address + after;
    WalkSkips(before, address + after);
    assert body == EncodeAttributes(before) + (address + after);
    WalkFirst(AddressKind(a), AddressValue(a, ip, port), after);
    assert address + after ==
           Put16(AddressKind(a)) + Put16(|AddressValue(a, ip, port)|) + AddressValue(a, ip, port) + after;
    AddressDecodes(a, ip, port);
    HeaderDecodes(tid, body, beyond);
  }

  lemma HeaderDecodes(tid: seq<byte>, body: seq<byte>, beyond: seq<byte>)
    requires |tid| == 12 && |body| < 0x1_0000
    ensures Parse(Put16(BINDING_SUCCESS) + Put16(|body|) + MAGIC + tid + body + beyond) == Stamp(tid, Walk(body, 0))
  {
    hide Walk, Put16, Get16, Parse, Stamp;
    var head := Put16(BINDING_SUCCESS) + Put16(|body|) + MAGIC + tid;
    HeaderFields(Put16(BINDING_SUCCESS), Put16(|body|), tid);
    var packet := head + body + beyond;
    assert packet[0..2] == head[0..2] && packet[2..4] == head[2..4] && packet[4..8] == head[4..8];
    assert packet[8..20] == head[8..20];
    assert packet[20..20 + |body|] == body;
    GetPut16(BINDING_SUCCESS);
    GetPut16(|body|);
    ParseFields(packet, |body|);
  }

  lemma ParseFields(packet: seq<byte>, length: u16)
    requires 20 + length <= |packet|
    requires Get16(packet[0..2]) == BINDING_SUCCESS && Get16(packet[2..4]) == length && packet[4..8] == MAGIC
    ensures Parse(packet) == Stamp(packet[8..20], Walk(packet[20..20 + length], 0))
  {
  }

  lemma HeaderFields(kind: seq<byte>, length: seq<byte>, tid: seq<byte>)
    requires |kind| == |length| == 2 && |tid| == 12
    ensures var head := kind + length + MAGIC + tid;
            |head| == 20 && head[0..2] == kind && head[2..4] == length && head[4..8] == MAGIC && head[8..20] == tid
  {
  }

  // ----- Everything the decoder accepts is an encoding

  lemma AddressEncodes(kind: u16, value: seq<byte>) returns (a: AddressAttribute)
    requires IsMapped(kind) && MappedAddress(kind, value).Ok? && |value| < 0x1_0000
    ensures AddressKind(a) == kind && |value| == 8 + |a.extra|
    ensures var m := MappedAddress(kind, value).value; |m.0| == 4 && AddressValue(a, m.0, m.1) == value
  {
    a := AddressAttribute(kind == XOR_MAPPED_ADDRESS, value[0], value[8..]);
    var m := MappedAddress(kind, value).value;
    PutGet16(value[2..4]);
    XorPortTwice(Get16(value[2..4]));
    XorTwice(value[4..8], MAGIC);
    assert value == value[0..2] + value[2..4] + value[4..8] + value[8..];
    assert value[0..2] == [value[0], 0x01];
  }

  /** One step of an accepting walk. */
  lemma WalkAccepts(body: seq<byte>)
    requires Walk(body, 0).Ok?
    ensures |body| >= 4
    ensures var end := 4 + Get16(body[2..4]);
            && end <= |body|
            && if IsMapped(Get16(body[0..2])) then Walk(body, 0) == MappedAddress(Get16(body[0..2]), body[4..end])
               else Align(end) + 4 <= |body| && Walk(body, 0) == Walk(body, Align(end))
  {
  }

  lemma {:induction false} WalkEncodes(body: seq<byte>)
    returns (before: seq<Attribute>, a: AddressAttribute, after: seq<byte>)
    requires Walk(body, 0).Ok? && |body| < 0x1_0000
    ensures Ignorable(before) && 8 + |a.extra| < 0x1_0000
    ensures var m := Walk(body, 0).value;
            |m.0| == 4 && body == EncodeAttributes(before) + EncodeAddress(a, m.0, m.1) + after
    decreases |body|
  {
    hide Walk, Put16, Get16, MappedAddress;
    WalkAccepts(body);
    var kind := Get16(body[0..2]);
    var end := 4 + Get16(body[2..4]);
    var value := body[4..end];
    PutGet16(body[0..2]);
    PutGet16(body[2..4]);
    if IsMapped(kind) {
      a := AddressEncodes(kind, value);
      before, after := [], body[end..];
      assert body == body[0..2] + body[2..4] + value + body[end..];
    } else {
      var next := Align(end);
      assert body[..next] + body[next..] == body;
      WalkShift(body[..next], body[next..], 0);
      var others;
      others, a, after := WalkEncodes(body[next..]);
      var first := Attribute(kind, value, body[end..next]);
      PrependAttribute(first, others, a, Walk(body, 0).value.0, Walk(body, 0).value.1, after);
      before := [first] + others;
      assert body[..next] == body[0..2] + body[2..4] + value + body[end..next];
    }
  }

  lemma PrependAttribute(first: Attribute, others: seq<Attribute>, a: AddressAttribute,
                         ip: IP, port: u16, after: seq<byte>)
    requires Ignorable(others) && first.Valid() && !IsMapped(first.kind) && |ip| == 4 && 8 + |a.extra| < 0x1_0000
    ensures Ignorable([first] + others)
    ensures EncodeAttributes([first] + others) + EncodeAddress(a, ip, port) + after ==
            EncodeAttribute(first) + (EncodeAttributes(others) + EncodeAddress(a, ip, port) + after)
  {
  }

  /** The packet is a Binding success response with this ID and address. */
  ghost predicate IsResponse(packet: seq<byte>, tid: seq<byte>, ip: IP, port: u16) {
    exists before, a, after, beyond ::
      Encodable(tid, before, a, ip, port, after) && packet == EncodeResponse(tid, before, a, ip, port, after, beyond)
  }

  /** Acceptance, exactly: the decoder accepts a packet with a result if and
      only if the packet is an encoding of that result. */
  lemma AcceptsExactlyEncodings(packet: seq<byte>, tid: seq<byte>, ip: seq<byte>, port: u16)
    ensures Parse(packet) == Ok(StunResult(tid, ip, port, "", None)) <==> IsResponse(packet, tid, ip, port)
  {
    hide Put16, Get16;
    if Parse(packet) == Ok(StunResult(tid, ip, port, "", None)) {
      var length := Get16(packet[2..4]);
      var body, beyond := packet[20..20 + length], packet[20 + length..];
      var before, a, after := WalkEncodes(body);
      PutGet16(packet[0..2]);
      PutGet16(packet[2..4]);
      assert packet == packet[0..2] + packet[2..4] + packet[4..8] + packet[8..20] + body + beyond;
      assert Encodable(tid, before, a, ip, port, after);
      assert packet == EncodeResponse(tid, before, a, ip, port, after, beyond);
    }
    forall before, a, after, beyond |
      Encodable(tid, before, a, ip, port, after) && packet == EncodeResponse(tid, before, a, ip, port, after, beyond)
      ensures Parse(packet) == Ok(StunResult(tid, ip, port, "", None))
    {
      DecodeEncoded(tid, before, a, ip, port, after, beyond);
    }
  }

  /** A packet whose first byte is not 0x01 is no response. This covers every
      QUIC packet, whose first byte has the fixed bit 0x40 (sections 17.2 and
      17.3 of RFC 9000), and the client's own requests. */
  lemma ForeignPacketsRejected(packet: seq<byte>)
    requires packet != [] && packet[0] != 0x01
    ensures Parse(packet).Err?
  {
  }

  lemma QUICPacketsRejected(packet: seq<byte>)
    requires packet != [] && packet[0] & 0x40 != 0
    ensures Parse(packet).Err?
  {
  }
}
