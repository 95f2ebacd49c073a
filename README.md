# SOCKS5 protocol engine

A Dafny model of the protocol core of a small Node.js SOCKS5 proxy
(RFC 1928). The model has five parts.

- **Wire codec** (`command.dfy`, module `CommandCodec`). It decodes a client
  request `VER CMD RSV ATYP DST.ADDR DST.PORT` into a `Command`. It serialises
  a `CommandReply` `VER REP RSV ATYP BND.ADDR BND.PORT` into a buffer that is
  allocated first and then filled through a running offset. Decoding and
  serialising are methods over sequences and arrays, and each is proved
  equal to a specification function. The lemmas prove the buffer layout, the
  fault cases and the round trips between replies and requests.
- **Host text** (`host_text.dfy`, module `HostText`). These are the string
  conversions the codec relies on: decimal rendering as in
  `Number.prototype.toString`, `Number.parseInt`, `String.prototype.split`
  and `join`, and a textual form for IPv6 addresses.
- **DNS memo cache** (`dns_cache.dfy`, module `Dns`). `DnsCache.dnsQuery`
  works over a lazily created shared `MemCache`. The resolver's answer and
  the clock are parameters.
- **Per-connection engine** (`server.dfy`, module `Server`). It covers method
  negotiation (`handshake`), request processing (`processCmd`) and the
  `clientStats` switch of the `'data'` handler. Each socket effect is
  returned as an `Action`, and the actions are listed in the order the
  server performs them.
- **Constants** (`constants.dfy`, module `Constants`). The protocol enums are
  datatypes with byte codes and decoders.

Node's runtime exceptions become a `Fault` result (defined in `basics.dfy`),
naming the Node error that would be thrown:

- `ReadPastEnd`: `readUint8` or `readUInt16BE` past the end of the chunk.
- `ValueOutOfRange`: `writeUint8` of a value outside 0..255.
- `OffsetOutOfRange`: a write past the end of the buffer.
- `NegativeSize`: `Buffer.alloc(-1)`.
- `MalformedAddress`: a failed IPv6 parse.

### Behaviour of the code that the model keeps

- **IPv4 reply with the wrong number of segments.** The code does not check
  that an IPv4 host has four dot-separated parts. Missing segments leave zero
  bytes. A fifth and sixth segment are written at offsets 8 and 9, where the
  port then overwrites them. A seventh segment writes past the buffer.
  `SegmentBytes` and `EncodeReply` model exactly that.
- **A refused request does not close the connection.** Section 6 of RFC 1928
  has the server terminate the connection shortly after a failure reply. The
  code calls `socket.end()` but leaves `clientStats` at `CmdProcessing`, so a
  chunk that is still delivered is parsed as a new request (`RequestOutcome`).
- **An unknown CMD is not answered and closed at once.** The code ends the
  socket first (`src/lib/server.ts:109`) and then carries on through the
  address check. It then attempts to write CommandNotSupported, or
  HostUnreachable when a Domain name does not resolve
  (`OtherCommandsNotSupported`, `OneReplyOrOneDial`). That write comes after
  `end()`, so a Node stream refuses it with ERR_STREAM_WRITE_AFTER_END,
  reported to the `'error'` handler, and the client does not receive the
  reply. The model records the calls in order (`End`, then `SendReply`); a
  `SendReply` after `End` is an attempted write, not a delivered one.
- **An unknown ATYP decodes without a fault**, to host `''` and port 0. The
  reply chosen for it, AddressTypeNotSupported, cannot be serialised:
  `Buffer.alloc(-1)` throws inside `processCmd`. So nothing is written, the
  socket is not ended (beyond the early end of an unknown CMD), and the
  connection stays in `CmdProcessing` (`RequestOutcome`,
  `UnknownAddressTypeExample`).
- **A fault aborts one chunk, not the connection.** An exception that
  escapes the `'data'` handler is caught by the process-wide handler of
  `src/server_test.ts:3-5`. `clientStats` keeps what was assigned before the
  throw, and the next chunk is handled in that state (`Run`,
  `FaultDoesNotStopConnection`).
- **A failed dial sends no ConnectionRefused reply.** The only handler on the
  remote socket logs the error (`src/lib/server.ts:154-156`).

## Model

| member | source | states |
|---|---|---|
| Constants.CommandTypeOf | src/lib/constants.ts:1-5 | a byte names a command exactly when it is 1..3, and the command it names is the one whose code is that byte |
| Constants.AddressTypeOf | src/lib/constants.ts:7-11 | a byte names an address type exactly when it is 1, 3 or 4 (2 is not one), and it names the type with that code |
| Constants.ClientSocketStateOf | src/lib/constants.ts:13-19 | the five connection states have the distinct codes 0..4 |
| Constants.AuthMethodTypeOf | src/lib/constants.ts:21-28 | the methods are exactly 0, 1, 2 and 0xFF ("no acceptable methods"), and decoding is inverse to the code |
| Constants.CommandReplyTypeOf | src/lib/constants.ts:30-41 | the reply codes are exactly 0..8, Succeeded through AddressTypeNotSupported |
| Constants.CodesRoundTrip | src/lib/constants.ts:1-41 | decoding the code of any enum value gives back that value, so every encoding is injective |
| HostText.Decimal | src/lib/command.ts:24-27 | the decimal rendering of a number is a non-empty string of digits |
| HostText.DecimalValue | src/lib/command.ts:24-27 | the digits of the decimal rendering of n have the value n |
| HostText.DigitPrefix | src/lib/command.ts:92 | the digit run that `parseInt` reads is a prefix of the segment, consists of digits, and ends where the digits end |
| HostText.ParseIntOfDecimal | src/lib/command.ts:92 | `parseInt` of the decimal rendering of n is n |
| HostText.ParseInt | src/lib/command.ts:92 | `parseInt` gives a number exactly when the text starts with a digit, or with a sign and then a digit; the number is negative only after a minus sign |
| HostText.Join | src/lib/command.ts:29-37 | the join starts with the first part, and contains the separator exactly when there are several parts or the first part contains it |
| HostText.Split | src/lib/command.ts:91 | splitting gives at least one part, and no part contains the separator |
| HostText.SplitJoin | src/lib/command.ts:91 | splitting a join of parts that do not contain the separator gives back exactly those parts |
| HostText.SplitDottedQuad | src/lib/command.ts:24-29 | splitting a rendered dotted quad on '.' gives the four decimal renderings |
| HostText.DottedQuad | src/lib/command.ts:24-29 | `address.join('.')` over the four decimal renderings: the text starts with the first octet and contains dots |
| HostText.LoopbackText | src/lib/command.ts:24-29 | the octets 127, 0, 0, 1 are rendered as "127.0.0.1" |
| HostText.HexGroup | src/lib/command.ts:43 | an IPv6 group is four characters without a colon |
| HostText.Ipv6Text | src/lib/command.ts:43-45 | stands in for `ipaddr.fromByteArray(..).toString()` with a fixed-width text (no `::` compression, no dropped leading zeros): it splits on ':' into exactly the eight four-digit groups of the bytes |
| HostText.ParseIpv6 | src/lib/command.ts:105 | a parsed IPv6 address is exactly 16 bytes |
| HostText.Ipv6RoundTrip | src/lib/command.ts:105 | parsing the text of any 16-byte address gives back those bytes |
| CommandCodec.Latin1 | src/lib/command.ts:33-35 | a domain name has one character per byte, and each character's code is that byte |
| CommandCodec.ReadUInt16BE | src/lib/command.ts:28 | the port read is big-endian: its high byte is byte i and its low byte is byte i + 1 |
| CommandCodec.DecodeCommand | src/lib/command.ts:11-18 | a decoded request needs at least 4 bytes; its version, command and address type are bytes 0, 1 and 3 |
| CommandCodec.ReservedByteIgnored | src/lib/command.ts:13-15 | changing byte 2 (RSV) never changes the result of decoding |
| CommandCodec.DecodeAddress | src/lib/command.ts:20-51 | the only fault is a read past the end. IPv4 decodes exactly when there are 10 bytes: the host splits into the decimal renderings of bytes 4..7 and the port is bytes 8..9 big-endian. Domain decodes exactly when there are 7 + L bytes, L being byte 4: the host is L byte-valued characters whose codes are bytes 5..5+L-1, and the port follows them. IPv6 decodes exactly when there are 22 bytes: the host parses back to bytes 4..19 and the port is bytes 20..21. An unknown type gives host `''` and port 0 |
| CommandCodec.ParseCommand | src/lib/command.ts:11-18 | the constructor's field reads give exactly `DecodeCommand` |
| CommandCodec.ParseAddress | src/lib/command.ts:20-51 | the loops that push characters and bytes give exactly `DecodeAddress` |
| CommandCodec.SegmentBytes | src/lib/command.ts:91-93 | writing the IPv4 segments from index i gives one byte per segment, and succeeds only when there are at most six segments |
| CommandCodec.SegmentValue | src/lib/command.ts:92 | the value `writeUint8` stores for `Number.parseInt(seg)`: a segment with no leading digit (NaN) is stored as 0, and a value is negative only after a minus sign |
| CommandCodec.BufferLength | src/lib/command.ts:55-73 | the buffer length is -1 exactly for an unknown ATYP, and otherwise two more than the offset where the port is written |
| CommandCodec.PortOffset | src/lib/command.ts:94-109 | `nextOffset`, where the port is written: at least 5, and 5 + len(host) for Domain (8 for IPv4 and 20 for IPv6) |
| CommandCodec.PortBytes | src/lib/command.ts:82 | `writeUInt16BE`: two bytes, high then low, whose big-endian value is the port |
| CommandCodec.PrependTwice | src/lib/command.ts:92 | helper for Ipv4ToBuffer: writing a byte then the rest equals writing both in one go, the invariant of the offset walk |
| CommandCodec.Ipv4Octets | src/lib/command.ts:90-95 | the IPv4 address bytes of a reply are exactly four |
| CommandCodec.Latin1Codes | src/lib/command.ts:99-101 | the character codes of a byte-valued host, read back as characters, are the host |
| CommandCodec.HostBytes | src/lib/command.ts:87-114 | the address bytes end at the port offset: 8 for IPv4, 5 + len(host) for Domain, 20 for IPv6; host serialisation never produces the unknown-ATYP fault |
| CommandCodec.EncodeReply | src/lib/command.ts:62-85 | serialisation fails with `NegativeSize` exactly for an unknown ATYP. Otherwise the buffer has length 10, 7 + len(host) or 22, bytes 0..3 are `05 REP 00 ATYP`, and the port is written big-endian at the end |
| CommandCodec.Host2Buffer | src/lib/command.ts:87-114 | on success, the address bytes are written at 4 up to the returned offset and bytes 0..3 are left unchanged; otherwise it faults as `HostBytes` does |
| CommandCodec.Ipv4ToBuffer | src/lib/command.ts:90-95 | the segment-by-segment writes with a running offset leave the IPv4 bytes of `HostBytes` and return offset 8, or the first fault |
| CommandCodec.DomainToBuffer | src/lib/command.ts:96-103 | the length byte and then the character codes are written, and the returned offset is 5 + len(host), or the fault for an overlong or non-byte name |
| CommandCodec.Ipv6ToBuffer | src/lib/command.ts:104-110 | the 16 parsed bytes are written and offset 20 is returned, or `MalformedAddress` |
| CommandCodec.GenerateBuffer | src/lib/command.ts:75-85 | allocating and then filling the buffer in place gives exactly `EncodeReply` |
| CommandCodec.PortRoundTrip | src/lib/command.ts:82 | reading back the big-endian port that was written gives the port |
| CommandCodec.PortBytesOfRead | src/lib/command.ts:28 | writing the port read from bytes i..i+1 reproduces those bytes |
| CommandCodec.Latin1CodesOfLatin1 | src/lib/command.ts:100 | a decoded domain name is byte-valued, and its codes are the original bytes |
| CommandCodec.Ipv4ReplyRoundTrip | src/lib/command.ts:87-95 | a reply for any dotted quad serialises to `05 REP 00 01 q PORT`, and decoding that buffer gives back the address type, the host and the port |
| CommandCodec.Ipv4ReplyEncodes | src/lib/command.ts:87-95 | a reply for any dotted quad serialises to `05 REP 00 01 q PORT` |
| CommandCodec.OctetSegments | src/lib/command.ts:91-93 | the decimal segments of four octets write back those octets, from any segment on |
| CommandCodec.DomainReplyRoundTrip | src/lib/command.ts:96-103 | a reply for any byte-valued name of at most 255 characters serialises to `05 REP 00 03 L name PORT`, and decoding gives back the name and the port |
| CommandCodec.DomainReplyEncodes | src/lib/command.ts:96-103 | the serialised form of a Domain reply |
| CommandCodec.Ipv6ReplyRoundTrip | src/lib/command.ts:104-110 | a reply for the text of any 16-byte address serialises to `05 REP 00 04 b PORT`, and decoding gives back the host and the port |
| CommandCodec.ReplyEchoesRequest | src/lib/command.ts:75-114 | a reply built from a decoded request of a known address type repeats that request's address and port bytes exactly |
| CommandCodec.EchoIpv4 | src/lib/command.ts:90-95 | the same statement for IPv4 requests |
| CommandCodec.EchoDomain | src/lib/command.ts:96-103 | the same statement for Domain requests |
| CommandCodec.EchoIpv6 | src/lib/command.ts:104-110 | the same statement for IPv6 requests |
| Dns.CacheKey | src/lib/dnscache.ts:13 | the key is "D:" followed by the domain |
| Dns.CacheKeyInjective | src/lib/dnscache.ts:13 | different domains have different keys |
| Dns.IsHit | src/lib/dnscache.ts:15 | the falsy test `!value`: a hit needs a live entry with a non-empty value, so a cached empty answer is a miss |
| Dns.Live | src/lib/dnscache.ts:14-16 | an entry is returned exactly when the key is stored and its expiry has not passed, and then it is the stored value |
| Dns.Lookup | src/lib/dnscache.ts:9-25 | the resolver is called exactly when there is no live, non-empty entry. A hit returns the cached value. After a call the value is the answer, or `''` for a null answer, which leaves the cache unchanged. Every non-null value is stored with expiry now+600, on a hit too. No other key changes |
| Dns.RepeatWithinTimeout | src/lib/dnscache.ts:14-23 | a second query within the timeout of a successful one does not call the resolver and returns the same value |
| Dns.RepeatAfterTimeout | src/lib/dnscache.ts:14-23 | a second query at or after the timeout calls the resolver again |
| Dns.EmptyAnswerIsNoHit | src/lib/dnscache.ts:15-23 | an empty answer is stored but never counts as a hit, so the next query calls the resolver again |
| Dns.MemCache.Get | src/lib/dnscache.ts:14 | the cache returns the value of a live entry, and nothing otherwise |
| Dns.MemCache.Set | src/lib/dnscache.ts:22 | storing replaces only that key's entry, with expiry now + timeout |
| Dns.MemCache.constructor | src/lib/dnscache.ts:11 | `new MemCache()` starts with no entries |
| Dns.DnsCache.constructor | src/lib/dnscache.ts:6 | the shared memo cache starts uncreated |
| Dns.DnsCache.DnsQuery | src/lib/dnscache.ts:9-25 | the memo cache is created on the first query and reused afterwards, and the result and the new contents are those of `Lookup` |
| Server.HandshakeFollowsRfc1928 | src/lib/server.ts:79-95 | a complete greeting is accepted exactly when one of its NMETHODS offered bytes is the server's method |
| Server.HandshakeIgnoresVersion | src/lib/server.ts:75 | the version byte does not affect negotiation |
| Server.HandshakeResponse | src/lib/server.ts:74-97 | negotiation faults with a read past the end exactly when the chunk is shorter than its method list; otherwise the reply is `05` followed by the server's method if accepted, or 0xFF |
| Server.Socks5Server.constructor | src/lib/server.ts:11-13 | the server accepts only NoAuth |
| Server.Socks5Server.Handshake | src/lib/server.ts:74-97 | the loop that collects methods and the two-byte buffer give exactly `HandshakeResponse` |
| Server.AddressCheck | src/lib/server.ts:112-136 | a request passes exactly when its ATYP is known and, for Domain, the DNS answer is not empty; it then goes to the answer for Domain and to the requested host otherwise. A refusal is AddressTypeNotSupported for an unknown ATYP and HostUnreachable otherwise, and carries the request's ATYP, host and port |
| Server.DomainToResolve | src/lib/server.ts:112-114 | only a decoded Domain request queries the cache, and it queries the requested host |
| Server.ProcessCommand | src/lib/server.ts:99-179 | a request succeeds exactly when it is a Connect whose address check passes |
| Server.SentRepliesConcat | src/lib/server.ts:142-178 | helper for OneReplyOrOneDial and SentRepliesSerialise: the replies and dials of consecutive actions are those of each part in turn |
| Server.OneReplyOrOneDial | src/lib/server.ts:138-178 | a successful request writes no reply and dials once; a refused one writes exactly one reply and dials nothing |
| Server.UnresolvableDomainIsHostUnreachable | src/lib/server.ts:113-121 | a Domain request with an empty DNS answer, whatever its command, is refused with HostUnreachable carrying ATYP Domain and the requested host and port |
| Server.UnknownAddressTypeIsRefused | src/lib/server.ts:130-136 | an unknown ATYP is refused with AddressTypeNotSupported, whatever the command and the DNS answer |
| Server.ConnectDialsTarget | src/lib/server.ts:138-153 | a Connect that passes the check detaches the parser and dials the resolved host for Domain, or the requested host, on the requested port. It writes no reply at once, and its deferred reply is Succeeded with the request's ATYP and the dialled host and port |
| Server.OtherCommandsNotSupported | src/lib/server.ts:159-168 | Bind, UdpAssociate and unknown commands that pass the check get one CommandNotSupported reply echoing the request, and the socket is ended first exactly for an unknown command |
| Server.SentRepliesSerialise | src/lib/server.ts:173-178 | every reply written for a decoded request serialises to the request's own address bytes after `05 REP 00 ATYP`, except the AddressTypeNotSupported reply, which faults |
| Server.Perform | src/lib/server.ts:172-177 | carrying out actions performs a prefix of them: all of them, or those before the first reply that cannot be serialised, whose fault is reported; every reply performed serialises |
| Server.PerformThroughReply | src/lib/server.ts:172-177 | actions without a reply all happen; a reply after them is written, or throws and is not |
| Server.PerformProcessCommand | src/lib/server.ts:99-179 | for a decoded request with an unknown ATYP only the early end of an unknown CMD happens and the fault is `NegativeSize`; for every other request all actions happen |
| Server.Step | src/lib/server.ts:19-50 | one chunk never moves the state backwards, never reaches Authenticate, reaches DataTransmission only from CmdProcessing, and a fault leaves the state as assigned before the throw |
| Server.Run | src/lib/server.ts:19-50 | over any sequence of chunks, faulting or not, the state never moves backwards |
| Server.NegotiationMovesState | src/lib/server.ts:22-33 | a first chunk faults exactly when it is shorter than its method list. The connection moves to CmdProcessing exactly when the server is NoAuth and NoAuth is offered, after writing `05 00`. A greeting without the server's method gets `05 FF`, the socket is ended, and the state stays Handshaking |
| Server.HandshakingIsFinal | src/lib/server.ts:21-49 | from Handshaking no sequence of chunks changes the state, so a failed negotiation never reaches CmdProcessing |
| Server.RequestOutcome | src/lib/server.ts:34-40 | for a decoded request: an unknown ATYP faults with nothing written and the state left CmdProcessing; a successful request performs its actions and moves to DataTransmission; a refused one performs its actions, ends the socket and stays in CmdProcessing |
| Server.DataTransmissionIsFinal | src/lib/server.ts:41-45 | in DataTransmission chunks are not parsed, no action follows, and the state never changes |
| Server.AuthenticateUnreachable | src/lib/server.ts:21-49 | no sequence of chunks reaches the unused Authenticate state |
| Server.NegotiationExamples | src/lib/server.ts:74-97 | offering only NoAuth gets `05 00` and proceeds; offering only GSSAPI gets `05 FF` and the socket is ended; a greeting cut short faults |
| Server.ConnectExample | src/lib/server.ts:34-40 | a Connect to 127.0.0.1:9999 detaches the parser, dials "127.0.0.1" on port 9999 and moves to DataTransmission |
| Server.UnknownAddressTypeExample | src/lib/server.ts:172-177 | a request with ATYP 2 faults with nothing written; with an unknown CMD as well, only the early end happens |
| Server.FaultDoesNotStopConnection | src/lib/server.ts:34-40 | a request cut short faults and leaves CmdProcessing, and a Connect sent after it reaches DataTransmission |
| Server.Socks5Server.ProcessCmd | src/lib/server.ts:99-179 | decoding, the switches and the final reply write give the outcome of `ProcessCommand` for the shared cache's DNS answer, carried out as `Perform` does; a decoding fault performs nothing. The cache is queried only for Domain requests |
| Server.Socks5Server.Decide | src/lib/server.ts:106-170 | the two switches over reassigned variables leave a reply to write exactly when the request failed, and the actions taken plus that reply are those of `ProcessCommand` for the shared cache's DNS answer |
| Server.Connection.constructor | src/lib/server.ts:15-16 | a new connection starts in the `connected` state |
| Server.Connection.OnData | src/lib/server.ts:19-50 | the `'data'` handler gives the state, the actions and the fault of `Step`, and it changes the shared cache as `Lookup` does |

## Left out

- `src/lib/udpassociate.ts` is not part of this model. It is datagram-socket
  plumbing. UdpAssociate requests get CommandNotSupported and never reach it.
- Socket plumbing (`net.createServer`, `listen`, `'close'` and `'error'`
  handlers, `remoteSocket.connect`, `pipe`, `removeAllListeners`) is modelled
  only as the `Action`s returned. Whether a dial succeeds, and the relaying
  after it, are not modelled.
- `ipaddr.js` is foreign code. IPv6 text is modelled as eight
  colon-separated groups of four lowercase hex digits, and the parser accepts
  either case. The compressed `::` form and embedded IPv4 forms are not
  modelled, and neither is `ipaddr.parse` accepting an IPv4 text.
- `Number.parseInt` is modelled as an optional sign followed by the leading
  digits, with NaN written as 0. Leading whitespace, the `0x` prefix and
  digits beyond the safe-integer range are not modelled.
- `dns-sync` and `mem-cache` are external libraries. The resolver's answer is
  a parameter (`None` for null or undefined). The clock is an explicit `now`.
  The timeout unit is abstract (600 units), and an entry is live while
  `now < expiry`. Timers and eviction are not modelled.
- The static `DnsCache.mcache` is a `DnsCache` object passed to each call.
  Sharing it across connections is explicit, and concurrent lookups are
  outside the model.
- A Node exception is a `Fault` result; logging it is not modelled.
- A host is a sequence of Dafny characters, which are Unicode scalar values.
  A character outside the Basic Multilingual Plane is one element where Node
  sees two UTF-16 units, and a lone surrogate cannot be represented. Replies
  still fault as in the code: any character code above 0xFF makes
  `writeUint8` throw ValueOutOfRange (`src/lib/command.ts:97-100`), and the
  model's length is above 255 only when the UTF-16 length is.
- Authentication methods other than NoAuth are not modelled: the code leaves
  them as a TODO and stays in Handshaking.
- Logging (`console.*`), the bootstrap file and the build configuration are
  not part of this model.
