/** The SOCKS5 request decoder and reply encoder of RFC 1928 (sections 4,
    5 and 6).  A request is `VER CMD RSV ATYP DST.ADDR DST.PORT`, a reply
    `VER REP RSV ATYP BND.ADDR BND.PORT`; both share one layout after
    byte 1.  `DecodeCommand` and `EncodeReply` say what the bytes mean;
    `ParseCommand` and `GenerateBuffer` are the step-by-step
    implementations, proved equal to them. */
module CommandCodec {
  import opened Basics
  import opened Constants
  import opened HostText

  /** A decoded request.  Command and address type are kept as the raw
      bytes read from the wire: the decoder casts without checking them. */
  datatype Command = Command(version: Byte, commandType: Byte, addressType: Byte, host: string, port: Port)

  /** A reply to be serialised.  The address type is a raw byte because a
      reply may echo an address type the server does not know. */
  datatype CommandReply = CommandReply(replyType: CommandReplyType, addressType: Byte, host: string, port: Port)

  // ---- decoding ---------------------------------------------------------

  /** `readUInt16BE(i)`: bytes i and i + 1 as a big-endian port. */
  function ReadUInt16BE(chunk: seq<Byte>, i: nat): (p: Port)
    requires i + 2 <= |chunk|
    ensures p / 0x100 == chunk[i] as int && p % 0x100 == chunk[i + 1] as int
  {
    (chunk[i] as int) * 0x100 + chunk[i + 1] as int
  }

  /** One character per byte, as `String.fromCharCode` gives. */
  function Latin1(bytes: seq<Byte>): (s: string)
    ensures |s| == |bytes|
    ensures forall k :: 0 <= k < |s| ==> s[k] as int == bytes[k]
  {
    seq(|bytes|, k requires 0 <= k < |bytes| => bytes[k] as char)
  }

  /** The host and port that follow ATYP in a request of address type `atyp`:
      for IPv4 the dotted quad of bytes 4..7 and the port at 8..9; for a
      domain of length L (byte 4) the L name bytes from 5 and the port at
      5 + L; for IPv6 bytes 4..19 and the port at 20..21; for any other
      type host `''` and port 0.  A chunk too short for its layout faults. */
  function DecodeAddress(chunk: seq<Byte>, atyp: Byte): (r: Result<(string, Port), Fault>)
    ensures r.Err? ==> r.error == ReadPastEnd
    ensures AddressTypeOf(atyp).None? ==> r == Ok(("", 0))
    ensures atyp == IPv4.Code() ==> (r.Ok? <==> 10 <= |chunk|)
    ensures atyp == IPv4.Code() && r.Ok? ==>
      && 10 <= |chunk|
      && Split(r.value.0, '.') == [Decimal(chunk[4]), Decimal(chunk[5]), Decimal(chunk[6]), Decimal(chunk[7])]
      && PortBytes(r.value.1) == chunk[8..10]
    ensures atyp == Domain.Code() ==> (r.Ok? <==> 5 <= |chunk| && 7 + chunk[4] as int <= |chunk|)
    ensures atyp == Domain.Code() && r.Ok? ==>
      && 5 <= |chunk| && 7 + chunk[4] as int <= |chunk|
      && |r.value.0| == chunk[4] as int && IsLatin1(r.value.0)
      && Latin1Codes(r.value.0) == chunk[5..5 + chunk[4] as int]
      && PortBytes(r.value.1) == chunk[5 + chunk[4] as int..7 + chunk[4] as int]
    ensures atyp == IPv6.Code() ==> (r.Ok? <==> 22 <= |chunk|)
    ensures atyp == IPv6.Code() && r.Ok? ==>
      && 22 <= |chunk|
      && ParseIpv6(r.value.0) == Some(chunk[4..20])
      && PortBytes(r.value.1) == chunk[20..22]
  {
    match AddressTypeOf(atyp)
    case Some(IPv4) =>
      if |chunk| < 10 then Err(ReadPastEnd)
      else
        SplitDottedQuad(chunk[4..8]);
        PortBytesOfRead(chunk, 8);
        Ok((DottedQuad(chunk[4..8]), ReadUInt16BE(chunk, 8)))
    case Some(Domain) =>
      if |chunk| < 5 then Err(ReadPastEnd)
      else
        var len: nat := chunk[4];
        if |chunk| < 7 + len then Err(ReadPastEnd)
        else
          Latin1CodesOfLatin1(chunk[5..5 + len]);
          PortBytesOfRead(chunk, 5 + len);
          Ok((Latin1(chunk[5..5 + len]), ReadUInt16BE(chunk, 5 + len)))
    case Some(IPv6) =>
      if |chunk| < 22 then Err(ReadPastEnd)
      else
        Ipv6RoundTrip(chunk[4..20]);
        PortBytesOfRead(chunk, 20);
        Ok((Ipv6Text(chunk[4..20]), ReadUInt16BE(chunk, 20)))
    case None =>
      Ok(("", 0))
  }

  /** The request a chunk encodes: VER from byte 0, CMD from byte 1, ATYP
      from byte 3 (RSV, byte 2, is never read), then the address. */
  function DecodeCommand(chunk: seq<Byte>): (r: Result<Command, Fault>)
    ensures r.Ok? ==> 4 <= |chunk| && r.value.version == chunk[0]
                      && r.value.commandType == chunk[1] && r.value.addressType == chunk[3]
  {
    if |chunk| < 4 then Err(ReadPastEnd)
    else
      match DecodeAddress(chunk, chunk[3])
      case Err(f) => Err(f)
      case Ok((host, port)) => Ok(Command(chunk[0], chunk[1], chunk[3], host, port))
  }

  /** The reserved byte 2 does not influence decoding. */
  lemma ReservedByteIgnored(chunk: seq<Byte>, rsv: Byte)
    requires 3 <= |chunk|
    ensures DecodeCommand(chunk[2 := rsv]) == DecodeCommand(chunk)
  {
    var c := chunk[2 := rsv];
    if 10 <= |chunk| {
      assert c[4..8] == chunk[4..8];
    }
    if 5 <= |chunk| && 7 + chunk[4] <= |chunk| {
      assert c[5..5 + chunk[4]] == chunk[5..5 + chunk[4]];
    }
    if 22 <= |chunk| {
      assert c[4..20] == chunk[4..20];
    }
  }

  /** `new Command(chunk)`: reads the header fields, then `parseAddress`. */
  method ParseCommand(chunk: seq<Byte>) returns (r: Result<Command, Fault>)
    ensures r == DecodeCommand(chunk)
  {
    if |chunk| < 4 {
      return Err(ReadPastEnd);
    }
    var version := chunk[0];
    var commandType := chunk[1];
    var addressType := chunk[3];
    var address := ParseAddress(chunk, addressType);
    match address
    case Err(f) =>
      r := Err(f);
    case Ok((host, port)) =>
      r := Ok(Command(version, commandType, addressType, host, port));
  }

  /** `parseAddress`: a switch on the address type; the domain and IPv6
      branches collect their bytes in a loop over a running index. */
  method ParseAddress(chunk: seq<Byte>, addressType: Byte) returns (r: Result<(string, Port), Fault>)
    requires 4 <= |chunk|
    ensures r == DecodeAddress(chunk, addressType)
  {
    match AddressTypeOf(addressType)
    case Some(IPv4) =>
      if |chunk| < 10 {
        return Err(ReadPastEnd);
      }
      var address := [Decimal(chunk[4]), Decimal(chunk[5]), Decimal(chunk[6]), Decimal(chunk[7])];
      var port := ReadUInt16BE(chunk, 8);
      assert chunk[4..8] == [chunk[4], chunk[5], chunk[6], chunk[7]];
      r := Ok((Join(address, '.'), port));
    case Some(Domain) =>
      if |chunk| < 5 {
        return Err(ReadPastEnd);
      }
      var domainLength: nat := chunk[4];
      var address: string := [];
      var i := 5;
      while i < 5 + domainLength
        invariant 5 <= i <= 5 + domainLength && i <= |chunk|
        invariant address == Latin1(chunk[5..i])
      {
        if i >= |chunk| {
          return Err(ReadPastEnd);
        }
        address := address + [chunk[i] as char];
        i := i + 1;
      }
      if i + 2 > |chunk| {
        return Err(ReadPastEnd);
      }
      r := Ok((address, ReadUInt16BE(chunk, i)));
    case Some(IPv6) =>
      var byteArray: seq<Byte> := [];
      var i := 4;
      while i < 20
        invariant 4 <= i <= 20 && i <= |chunk|
        invariant byteArray == chunk[4..i]
      {
        if i >= |chunk| {
          return Err(ReadPastEnd);
        }
        byteArray := byteArray + [chunk[i]];
        i := i + 1;
      }
      if 22 > |chunk| {
        return Err(ReadPastEnd);
      }
      r := Ok((Ipv6Text(byteArray), ReadUInt16BE(chunk, 20)));
    case None =>
      r := Ok(("", 0));
  }

  // ---- encoding ---------------------------------------------------------

  /** `writeUInt16BE(port)`: the high byte, then the low byte. */
  function PortBytes(port: Port): (b: seq<Byte>)
    ensures |b| == 2 && b[0] as int * 0x100 + b[1] as int == port
  {
    [port / 0x100, port % 0x100]
  }

  /** The length the reply constructor allocates: two bytes past the port
      offset, so the port ends the buffer; -1 for an unknown type. */
  function BufferLength(reply: CommandReply): (n: int)
    ensures AddressTypeOf(reply.addressType).None? <==> n == -1
    ensures AddressTypeOf(reply.addressType).Some? ==>
      n == PortOffset(AddressTypeOf(reply.addressType).value, reply.host) + 2
  {
    match AddressTypeOf(reply.addressType)
    case Some(IPv4) => 10
    case Some(Domain) => 7 + |reply.host|
    case Some(IPv6) => 22
    case None => -1
  }

  /** The offset `Host2Buffer` returns: where the port is written. */
  function PortOffset(t: AddressType, host: string): (n: nat)
    ensures 5 <= n
    ensures t == Domain ==> n - 5 == |host|
  {
    match t
    case IPv4 => 8
    case Domain => 5 + |host|
    case IPv6 => 20
  }

  /** The integer `Number.parseInt` gives for an IPv4 segment; `NaN`
      passes `writeUint8`'s range check and is stored as 0. */
  function SegmentValue(seg: string): (v: int)
    ensures (!(1 <= |seg| && IsDigit(seg[0]))
             && !(2 <= |seg| && (seg[0] == '-' || seg[0] == '+') && IsDigit(seg[1]))) ==> v == 0
    ensures 1 <= |seg| && seg[0] != '-' ==> v >= 0
  {
    match ParseInt(seg)
    case None => 0
    case Some(n) => n
  }

  /** The bytes written for the IPv4 segments `segs[i..]`, the first at
      offset 4 + i of the 10-byte buffer, with the fault the first bad
      write raises: a value outside 0..255, or an offset past the end. */
  function SegmentBytes(segs: seq<string>, i: nat): (r: Result<seq<Byte>, Fault>)
    requires i <= |segs|
    ensures r.Ok? ==> |r.value| == |segs| - i && (i < |segs| ==> |segs| <= 6)
    ensures r.Err? ==> r.error == ValueOutOfRange || r.error == OffsetOutOfRange
    decreases |segs| - i
  {
    if i == |segs| then Ok([])
    else
      var v := SegmentValue(segs[i]);
      if v < 0 || v > 0xFF then Err(ValueOutOfRange)
      else if 4 + i >= 10 then Err(OffsetOutOfRange)
      else
        match SegmentBytes(segs, i + 1)
        case Err(f) => Err(f)
        case Ok(rest) => Ok([v] + rest)
  }

  function Prepend(p: seq<Byte>, r: Result<seq<Byte>, Fault>): Result<seq<Byte>, Fault> {
    match r
    case Err(f) => Err(f)
    case Ok(rest) => Ok(p + rest)
  }

  lemma PrependTwice(p: seq<Byte>, v: Byte, r: Result<seq<Byte>, Fault>)
    ensures Prepend(p, Prepend([v], r)) == Prepend(p + [v], r)
  {
    if r.Ok? {
      assert p + ([v] + r.value) == (p + [v]) + r.value;
    }
  }

  /** The four address bytes of an IPv4 reply.  Bytes of missing segments
      stay 0; a fifth and sixth segment land on the port bytes, which the
      port overwrites afterwards. */
  function Ipv4Octets(host: string): (r: Result<seq<Byte>, Fault>)
    ensures r.Ok? ==> |r.value| == 4
  {
    var segs := Split(host, '.');
    match SegmentBytes(segs, 0)
    case Err(f) => Err(f)
    case Ok(vs) => Ok((vs + [0, 0, 0, 0])[..4])
  }

  predicate IsLatin1(host: string) {
    forall i :: 0 <= i < |host| ==> host[i] as int < 0x100
  }

  function Latin1Codes(host: string): (b: seq<Byte>)
    requires IsLatin1(host)
    ensures |b| == |host| && Latin1(b) == host
  {
    seq(|host|, i requires 0 <= i < |host| => host[i] as int)
  }

  /** The bytes `Host2Buffer` writes from offset 4 up to the port offset. */
  function HostBytes(t: AddressType, host: string): (r: Result<seq<Byte>, Fault>)
    ensures r.Ok? ==> 4 + |r.value| == PortOffset(t, host)
    ensures r.Err? ==> r.error != NegativeSize
  {
    match t
    case IPv4 => Ipv4Octets(host)
    case Domain =>
      if |host| > 0xFF || !IsLatin1(host) then Err(ValueOutOfRange)
      else Ok([|host|] + Latin1Codes(host))
    case IPv6 =>
      match ParseIpv6(host)
      case None => Err(MalformedAddress)
      case Some(b) => Ok(b)
  }

  /** The bytes of a reply, or the fault `generateBuffer` raises.  A
      serialised reply is exactly as long as the constructor allocated,
      starts `05 REP 00 ATYP`, and its big-endian port ends the buffer. */
  function EncodeReply(reply: CommandReply): (r: Result<seq<Byte>, Fault>)
    ensures AddressTypeOf(reply.addressType).None? <==> r == Err(NegativeSize)
    ensures r.Ok? ==>
      var t := AddressTypeOf(reply.addressType).value;
      var off := PortOffset(t, reply.host);
      && |r.value| == BufferLength(reply) == off + 2
      && r.value[..4] == [5, reply.replyType.Code(), 0, reply.addressType]
      && r.value[off..] == PortBytes(reply.port)
  {
    match AddressTypeOf(reply.addressType)
    case None => Err(NegativeSize)
    case Some(t) =>
      match HostBytes(t, reply.host)
      case Err(f) => Err(f)
      case Ok(hb) => Ok([5, reply.replyType.Code(), 0, reply.addressType] + hb + PortBytes(reply.port))
  }

  /** `Host2Buffer`: writes the address into the freshly allocated buffer
      from offset 4, advancing the offset, and returns the port offset.
      Each address type's branch is a method of its own below. */
  method Host2Buffer(reply: CommandReply, chunk: array<Byte>, offset: nat) returns (r: Result<nat, Fault>)
    requires chunk.Length == BufferLength(reply) && offset == 4
    requires forall i :: 4 <= i < chunk.Length ==> chunk[i] == 0
    modifies chunk
    ensures AddressTypeOf(reply.addressType).Some?
    ensures
      var t := AddressTypeOf(reply.addressType).value;
      match HostBytes(t, reply.host)
      case Err(f) => r == Err(f)
      case Ok(hb) =>
        && r == Ok(PortOffset(t, reply.host))
        && chunk[..4] == old(chunk[..4])
        && chunk[4..PortOffset(t, reply.host)] == hb
  {
    match AddressTypeOf(reply.addressType)
    case Some(IPv4) =>
      r := Ipv4ToBuffer(reply.host, chunk, offset);
    case Some(Domain) =>
      r := DomainToBuffer(reply.host, chunk, offset);
    case Some(IPv6) =>
      r := Ipv6ToBuffer(reply.host, chunk, offset);
  }

  /** The IPv4 branch: one `writeUint8(Number.parseInt(seg), offset++)` per
      segment of `host.split('.')`; the port offset is 8 regardless. */
  method Ipv4ToBuffer(host: string, chunk: array<Byte>, offset0: nat) returns (r: Result<nat, Fault>)
    requires chunk.Length == 10 && offset0 == 4
    requires forall i :: 4 <= i < 10 ==> chunk[i] == 0
    modifies chunk
    ensures match Ipv4Octets(host)
      case Err(f) => r == Err(f)
      case Ok(hb) => r == Ok(8) && chunk[..4] == old(chunk[..4]) && chunk[4..8] == hb
  {
    var offset := offset0;
    var segs := Split(host, '.');
    ghost var done: seq<Byte> := [];
    assert Prepend(done, SegmentBytes(segs, 0)) == SegmentBytes(segs, 0) by {
      if SegmentBytes(segs, 0).Ok? {
        assert done + SegmentBytes(segs, 0).value == SegmentBytes(segs, 0).value;
      }
    }
    var i := 0;
    while i < |segs|
      invariant 0 <= i <= |segs| && i <= 6 && offset == 4 + i
      invariant |done| == i
      invariant SegmentBytes(segs, 0) == Prepend(done, SegmentBytes(segs, i))
      invariant chunk[..4] == old(chunk[..4])
      invariant chunk[4..4 + i] == done
      invariant forall j :: 4 + i <= j < 10 ==> chunk[j] == 0
    {
      var v := SegmentValue(segs[i]);
      if v < 0 || v > 0xFF {
        return Err(ValueOutOfRange);
      }
      if offset >= chunk.Length {
        return Err(OffsetOutOfRange);
      }
      chunk[offset] := v;
      offset := offset + 1;
      PrependTwice(done, v, SegmentBytes(segs, i + 1));
      done := done + [v];
      i := i + 1;
    }
    assert done + [] == done;
    assert SegmentBytes(segs, 0) == Ok(done);
    assert chunk[4..8] == (done + [0, 0, 0, 0])[..4];
    r := Ok(8);
  }

  /** The Domain branch: the length at offset 4, then one byte per
      character code; the port offset is 4 + 1 + the host's length. */
  method DomainToBuffer(host: string, chunk: array<Byte>, offset0: nat) returns (r: Result<nat, Fault>)
    requires chunk.Length == 7 + |host| && offset0 == 4
    modifies chunk
    ensures match HostBytes(Domain, host)
      case Err(f) => r == Err(f)
      case Ok(hb) => r == Ok(5 + |host|) && chunk[..4] == old(chunk[..4]) && chunk[4..5 + |host|] == hb
  {
    var offset := offset0;
    if |host| > 0xFF {
      return Err(ValueOutOfRange);
    }
    chunk[4] := |host|;
    offset := offset + 1;
    var i := 0;
    while i < |host|
      invariant 0 <= i <= |host| && offset == 5 + i
      invariant forall k :: 0 <= k < i ==> host[k] as int < 0x100
      invariant chunk[..4] == old(chunk[..4]) && chunk[4] == |host|
      invariant forall k :: 0 <= k < i ==> chunk[5 + k] == host[k] as int
    {
      var code := host[i] as int;
      if code > 0xFF {
        return Err(ValueOutOfRange);
      }
      chunk[offset] := code;
      offset := offset + 1;
      i := i + 1;
    }
    assert chunk[4..5 + |host|] == [|host|] + Latin1Codes(host);
    r := Ok(4 + 1 + |host|);
  }

  /** The IPv6 branch: the 16 parsed octets from offset 4; port offset 20. */
  method Ipv6ToBuffer(host: string, chunk: array<Byte>, offset0: nat) returns (r: Result<nat, Fault>)
    requires chunk.Length == 22 && offset0 == 4
    modifies chunk
    ensures match HostBytes(IPv6, host)
      case Err(f) => r == Err(f)
      case Ok(hb) => r == Ok(20) && chunk[..4] == old(chunk[..4]) && chunk[4..20] == hb
  {
    var offset := offset0;
    var parsed := ParseIpv6(host);
    if parsed.None? {
      return Err(MalformedAddress);
    }
    var bytes := parsed.value;
    var i := 0;
    while i < 16
      invariant 0 <= i <= 16 && offset == 4 + i
      invariant chunk[..4] == old(chunk[..4])
      invariant chunk[4..4 + i] == bytes[..i]
    {
      chunk[offset] := bytes[i];
      offset := offset + 1;
      i := i + 1;
    }
    r := Ok(20);
  }

  /** `generateBuffer`: allocates the zero-filled buffer, writes the
      header, the address and the port. */
  method GenerateBuffer(reply: CommandReply) returns (r: Result<seq<Byte>, Fault>)
    ensures r == EncodeReply(reply)
  {
    var bufferLength := BufferLength(reply);
    if bufferLength < 0 {
      return Err(NegativeSize);
    }
    var chunk := new Byte[bufferLength](_ => 0);
    chunk[0] := 5;
    chunk[1] := reply.replyType.Code();
    chunk[2] := 0;
    chunk[3] := reply.addressType;
    var next := Host2Buffer(reply, chunk, 4);
    if next.Err? {
      return Err(next.error);
    }
    var nextOffset := next.value;
    chunk[nextOffset] := reply.port / 0x100;
    chunk[nextOffset + 1] := reply.port % 0x100;
    r := Ok(chunk[..]);
    ghost var t := AddressTypeOf(reply.addressType).value;
    ghost var hb := HostBytes(t, reply.host).value;
    ghost var header: seq<Byte> := [5, reply.replyType.Code(), 0, reply.addressType];
    assert chunk[..4] == header;
    assert chunk[4..nextOffset] == hb;
    assert chunk[nextOffset..] == PortBytes(reply.port);
    assert chunk[..] == chunk[..4] + chunk[4..nextOffset] + chunk[nextOffset..];
  }

  // ---- round trips ------------------------------------------------------

  lemma PortRoundTrip(port: Port)
    ensures ReadUInt16BE(PortBytes(port), 0) == port
  {
  }

  lemma PortBytesOfRead(chunk: seq<Byte>, i: nat)
    requires i + 2 <= |chunk|
    ensures PortBytes(ReadUInt16BE(chunk, i)) == chunk[i..i + 2]
  {
  }

  lemma Latin1CodesOfLatin1(bytes: seq<Byte>)
    ensures IsLatin1(Latin1(bytes)) && Latin1Codes(Latin1(bytes)) == bytes
  {
  }

  /** An IPv4 reply for a canonical dotted quad serialises to the four
      octets, and decoding the buffer gives back type, host and port. */
  lemma Ipv4ReplyRoundTrip(rep: CommandReplyType, q: seq<Byte>, port: Port)
    requires |q| == 4
    ensures EncodeReply(CommandReply(rep, IPv4.Code(), DottedQuad(q), port))
            == Ok([5, rep.Code(), 0, IPv4.Code()] + q + PortBytes(port))
    ensures DecodeCommand([5, rep.Code(), 0, IPv4.Code()] + q + PortBytes(port))
            == Ok(Command(5, rep.Code(), IPv4.Code(), DottedQuad(q), port))
  {
    Ipv4ReplyEncodes(rep, q, port);
    var bytes := [5, rep.Code(), 0, IPv4.Code()] + q + PortBytes(port);
    assert bytes[4..8] == q;
    PortRoundTrip(port);
    assert bytes[8..] == PortBytes(port);
  }

  lemma Ipv4ReplyEncodes(rep: CommandReplyType, q: seq<Byte>, port: Port)
    requires |q| == 4
    ensures EncodeReply(CommandReply(rep, IPv4.Code(), DottedQuad(q), port))
            == Ok([5, rep.Code(), 0, IPv4.Code()] + q + PortBytes(port))
  {
    SplitDottedQuad(q);
    OctetSegments([Decimal(q[0]), Decimal(q[1]), Decimal(q[2]), Decimal(q[3])], q, 0);
    assert (q + [0, 0, 0, 0])[..4] == q;
  }

  /** The segments of a dotted quad write back its octets, from segment i on. */
  lemma {:induction false} OctetSegments(segs: seq<string>, q: seq<Byte>, i: nat)
    requires |segs| == |q| == 4 && i <= 4
    requires forall j :: 0 <= j < 4 ==> segs[j] == Decimal(q[j])
    ensures SegmentBytes(segs, i) == Ok(q[i..])
    decreases 4 - i
  {
    if i < 4 {
      OctetSegments(segs, q, i + 1);
      ParseIntOfDecimal(q[i]);
      assert q[i..] == [q[i]] + q[i + 1..];
    }
  }

  /** A Domain reply for a host of at most 255 byte-valued characters
      serialises to `L host PORT`, and decoding gives the reply back. */
  lemma DomainReplyRoundTrip(rep: CommandReplyType, host: string, port: Port)
    requires |host| <= 0xFF && IsLatin1(host)
    ensures EncodeReply(CommandReply(rep, Domain.Code(), host, port))
            == Ok([5, rep.Code(), 0, Domain.Code(), |host|] + Latin1Codes(host) + PortBytes(port))
    ensures DecodeCommand([5, rep.Code(), 0, Domain.Code(), |host|] + Latin1Codes(host) + PortBytes(port))
            == Ok(Command(5, rep.Code(), Domain.Code(), host, port))
  {
    DomainReplyEncodes(rep, host, port);
    var bytes := [5, rep.Code(), 0, Domain.Code(), |host|] + Latin1Codes(host) + PortBytes(port);
    assert bytes[5..5 + |host|] == Latin1Codes(host);
    assert bytes[5 + |host|..] == PortBytes(port);
    PortRoundTrip(port);
  }

  lemma DomainReplyEncodes(rep: CommandReplyType, host: string, port: Port)
    requires |host| <= 0xFF && IsLatin1(host)
    ensures EncodeReply(CommandReply(rep, Domain.Code(), host, port))
            == Ok([5, rep.Code(), 0, Domain.Code(), |host|] + Latin1Codes(host) + PortBytes(port))
  {
    assert [5, rep.Code(), 0, Domain.Code()] + ([|host|] + Latin1Codes(host)) + PortBytes(port)
        == [5, rep.Code(), 0, Domain.Code(), |host|] + Latin1Codes(host) + PortBytes(port);
  }

  /** An IPv6 reply for the text of 16 octets serialises to those octets,
      and decoding gives the reply back. */
  lemma Ipv6ReplyRoundTrip(rep: CommandReplyType, b: seq<Byte>, port: Port)
    requires |b| == 16
    ensures EncodeReply(CommandReply(rep, IPv6.Code(), Ipv6Text(b), port))
            == Ok([5, rep.Code(), 0, IPv6.Code()] + b + PortBytes(port))
    ensures DecodeCommand([5, rep.Code(), 0, IPv6.Code()] + b + PortBytes(port))
            == Ok(Command(5, rep.Code(), IPv6.Code(), Ipv6Text(b), port))
  {
    Ipv6RoundTrip(b);
    var bytes := [5, rep.Code(), 0, IPv6.Code()] + b + PortBytes(port);
    assert bytes[4..20] == b;
    assert bytes[20..] == PortBytes(port);
    PortRoundTrip(port);
  }

  /** A reply that echoes the address of a decoded request (with a known
      address type) always serialises, byte for byte, to the request's own
      address bytes: the reply buffer is as long as the request's address
      part and differs from the request only in bytes 0..3. */
  lemma ReplyEchoesRequest(chunk: seq<Byte>, rep: CommandReplyType)
    requires DecodeCommand(chunk).Ok? && AddressTypeOf(chunk[3]).Some?
    ensures
      var cmd := DecodeCommand(chunk).value;
      var reply := CommandReply(rep, cmd.addressType, cmd.host, cmd.port);
      && 4 <= BufferLength(reply) <= |chunk|
      && EncodeReply(reply) == Ok([5, rep.Code(), 0, chunk[3]] + chunk[4..BufferLength(reply)])
  {
    match AddressTypeOf(chunk[3]).value
    case IPv4 => EchoIpv4(chunk, rep);
    case Domain => EchoDomain(chunk, rep);
    case IPv6 => EchoIpv6(chunk, rep);
  }

  lemma EchoIpv4(chunk: seq<Byte>, rep: CommandReplyType)
    requires DecodeCommand(chunk).Ok? && chunk[3] == IPv4.Code()
    ensures
      var cmd := DecodeCommand(chunk).value;
      EncodeReply(CommandReply(rep, cmd.addressType, cmd.host, cmd.port))
        == Ok([5, rep.Code(), 0, chunk[3]] + chunk[4..10])
  {
    var cmd := DecodeCommand(chunk).value;
    assert cmd.host == DottedQuad(chunk[4..8]) && cmd.port == ReadUInt16BE(chunk, 8);
    Ipv4ReplyRoundTrip(rep, chunk[4..8], cmd.port);
    PortBytesOfRead(chunk, 8);
    assert chunk[4..10] == chunk[4..8] + chunk[8..10];
    assert [5, rep.Code(), 0, chunk[3]] + chunk[4..8] + chunk[8..10]
        == [5, rep.Code(), 0, chunk[3]] + chunk[4..10];
  }

  lemma EchoDomain(chunk: seq<Byte>, rep: CommandReplyType)
    requires DecodeCommand(chunk).Ok? && chunk[3] == Domain.Code()
    ensures 7 + chunk[4] as int <= |chunk|
    ensures
      var cmd := DecodeCommand(chunk).value;
      && |cmd.host| == chunk[4] as int
      && EncodeReply(CommandReply(rep, cmd.addressType, cmd.host, cmd.port))
         == Ok([5, rep.Code(), 0, chunk[3]] + chunk[4..7 + chunk[4] as int])
  {
    var len: nat := chunk[4];
    var name := chunk[5..5 + len];
    var port := ReadUInt16BE(chunk, 5 + len);
    assert DecodeCommand(chunk).value == Command(chunk[0], chunk[1], chunk[3], Latin1(name), port);
    Latin1CodesOfLatin1(name);
    DomainReplyEncodes(rep, Latin1(name), port);
    PortBytesOfRead(chunk, 5 + len);
    assert chunk[4..7 + len] == [chunk[4]] + name + chunk[5 + len..7 + len];
    assert [5, rep.Code(), 0, chunk[3], len] + name + chunk[5 + len..7 + len]
        == [5, rep.Code(), 0, chunk[3]] + chunk[4..7 + len];
  }

  lemma EchoIpv6(chunk: seq<Byte>, rep: CommandReplyType)
    requires DecodeCommand(chunk).Ok? && chunk[3] == IPv6.Code()
    ensures
      var cmd := DecodeCommand(chunk).value;
      EncodeReply(CommandReply(rep, cmd.addressType, cmd.host, cmd.port))
        == Ok([5, rep.Code(), 0, chunk[3]] + chunk[4..22])
  {
    var cmd := DecodeCommand(chunk).value;
    assert cmd.host == Ipv6Text(chunk[4..20]) && cmd.port == ReadUInt16BE(chunk, 20);
    Ipv6ReplyRoundTrip(rep, chunk[4..20], cmd.port);
    PortBytesOfRead(chunk, 20);
    assert chunk[4..22] == chunk[4..20] + chunk[20..22];
    assert [5, rep.Code(), 0, chunk[3]] + chunk[4..20] + chunk[20..22]
        == [5, rep.Code(), 0, chunk[3]] + chunk[4..22];
  }
}
