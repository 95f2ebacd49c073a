/** The protocol enumerations of the proxy and their one-byte encodings
    (sections 3, 4 and 6 of RFC 1928).  `Code` encodes; the `...Of`
    functions decode a raw byte and are exact partial inverses of `Code`. */
module Constants {
  import opened Basics

  datatype CommandType = Connect | Bind | UdpAssociate {
    function Code(): Byte {
      match this
      case Connect => 0x01
      case Bind => 0x02
      case UdpAssociate => 0x03
    }
  }

  function CommandTypeOf(b: Byte): (r: Option<CommandType>)
    ensures r.Some? <==> 0x01 <= b <= 0x03
    ensures forall t: CommandType :: r == Some(t) <==> t.Code() == b
  {
    if b == 0x01 then Some(Connect)
    else if b == 0x02 then Some(Bind)
    else if b == 0x03 then Some(UdpAssociate)
    else None
  }

  datatype AddressType = IPv4 | Domain | IPv6 {
    function Code(): Byte {
      match this
      case IPv4 => 0x01
      case Domain => 0x03
      case IPv6 => 0x04
    }
  }

  function AddressTypeOf(b: Byte): (r: Option<AddressType>)
    ensures r.Some? <==> b == 0x01 || b == 0x03 || b == 0x04
    ensures forall t: AddressType :: r == Some(t) <==> t.Code() == b
  {
    if b == 0x01 then Some(IPv4)
    else if b == 0x03 then Some(Domain)
    else if b == 0x04 then Some(IPv6)
    else None
  }

  datatype ClientSocketState = Connected | Handshaking | Authenticate | CmdProcessing | DataTransmission {
    function Code(): Byte {
      match this
      case Connected => 0x00
      case Handshaking => 0x01
      case Authenticate => 0x02
      case CmdProcessing => 0x03
      case DataTransmission => 0x04
    }
  }

  function ClientSocketStateOf(b: Byte): (r: Option<ClientSocketState>)
    ensures r.Some? <==> b <= 0x04
    ensures forall s: ClientSocketState :: r == Some(s) <==> s.Code() == b
  {
    if b == 0x00 then Some(Connected)
    else if b == 0x01 then Some(Handshaking)
    else if b == 0x02 then Some(Authenticate)
    else if b == 0x03 then Some(CmdProcessing)
    else if b == 0x04 then Some(DataTransmission)
    else None
  }

  /** Authentication methods; `Invalid` is "no acceptable methods". */
  datatype AuthMethodType = NoAuth | GSSAPI | Basic | Invalid {
    function Code(): Byte {
      match this
      case NoAuth => 0x00
      case GSSAPI => 0x01
      case Basic => 0x02
      case Invalid => 0xFF
    }
  }

  function AuthMethodTypeOf(b: Byte): (r: Option<AuthMethodType>)
    ensures r.Some? <==> b <= 0x02 || b == 0xFF
    ensures forall m: AuthMethodType :: r == Some(m) <==> m.Code() == b
  {
    if b == 0x00 then Some(NoAuth)
    else if b == 0x01 then Some(GSSAPI)
    else if b == 0x02 then Some(Basic)
    else if b == 0xFF then Some(Invalid)
    else None
  }

  datatype CommandReplyType =
    | Succeeded
    | GeneralFailure
    | ConnectionDisallowedByRuleset
    | NetworkUnreachable
    | HostUnreachable
    | ConnectionRefused
    | TTLExpired
    | CommandNotSupported
    | AddressTypeNotSupported
  {
    function Code(): Byte {
      match this
      case Succeeded => 0x00
      case GeneralFailure => 0x01
      case ConnectionDisallowedByRuleset => 0x02
      case NetworkUnreachable => 0x03
      case HostUnreachable => 0x04
      case ConnectionRefused => 0x05
      case TTLExpired => 0x06
      case CommandNotSupported => 0x07
      case AddressTypeNotSupported => 0x08
    }
  }

  function CommandReplyTypeOf(b: Byte): (r: Option<CommandReplyType>)
    ensures r.Some? <==> b <= 0x08
    ensures forall t: CommandReplyType :: r == Some(t) <==> t.Code() == b
  {
    match b
    case 0x00 => Some(Succeeded)
    case 0x01 => Some(GeneralFailure)
    case 0x02 => Some(ConnectionDisallowedByRuleset)
    case 0x03 => Some(NetworkUnreachable)
    case 0x04 => Some(HostUnreachable)
    case 0x05 => Some(ConnectionRefused)
    case 0x06 => Some(TTLExpired)
    case 0x07 => Some(CommandNotSupported)
    case 0x08 => Some(AddressTypeNotSupported)
    case _ => None
  }

  /** Decoding after encoding gives the value back, for every enumeration. */
  lemma CodesRoundTrip(c: CommandType, a: AddressType, s: ClientSocketState, m: AuthMethodType, r: CommandReplyType)
    ensures CommandTypeOf(c.Code()) == Some(c)
    ensures AddressTypeOf(a.Code()) == Some(a)
    ensures ClientSocketStateOf(s.Code()) == Some(s)
    ensures AuthMethodTypeOf(m.Code()) == Some(m)
    ensures CommandReplyTypeOf(r.Code()) == Some(r)
  {
  }
}
