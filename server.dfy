/** The per-connection protocol engine of the proxy: method negotiation
    (section 3 of RFC 1928), request processing (sections 4 to 6) and the
    client state switch run on every chunk the client sends.  Socket
    effects become `Action`s, listed in the order the server performs them. */
module Server {
  import opened Basics
  import opened Constants
  import opened CommandCodec
  import opened Dns
  import opened HostText

  datatype Action =
    | Write(bytes: seq<Byte>)          // socket.write of a buffer built in place
    | SendReply(reply: CommandReply)   // socket.write(reply.generateBuffer()); refused by the stream after End
    | End                              // socket.end()
    | RemoveDataListeners              // socket.removeAllListeners('data'): later chunks are relayed, not parsed
    | Dial(host: string, port: Port, onConnect: CommandReply)
      // remoteSocket.connect(port, host, ...): once connected, onConnect is
      // sent to the client and both sockets are piped into each other

  // ---- handshake ----------------------------------------------------------

  datatype HandshakeOutcome = HandshakeOutcome(accepted: bool, reply: seq<Byte>)

  /** The greeting `VER NMETHODS METHODS...` is complete and one of its
      NMETHODS method bytes is `m`. */
  predicate Offers(chunk: seq<Byte>, m: Byte) {
    && 2 <= |chunk| && 2 + chunk[1] as int <= |chunk|
    && exists i :: 2 <= i < 2 + chunk[1] as int && chunk[i] == m
  }

  /** The method negotiation: `VER NMETHODS METHODS...` is answered with
      `05 METHOD`, where METHOD is the server's method if the client offers
      it and 0xFF otherwise.  A chunk too short for its method list faults. */
  function HandshakeResponse(chunk: seq<Byte>, accept: AuthMethodType): (r: Result<HandshakeOutcome, Fault>)
    ensures r.Err? <==> |chunk| < 2 || |chunk| < 2 + chunk[1] as int
    ensures r.Err? ==> r.error == ReadPastEnd
    ensures r.Ok? ==> r.value.reply == [5, if r.value.accepted then accept.Code() else 0xFF]
  {
    if |chunk| < 2 || |chunk| < 2 + chunk[1] as int then Err(ReadPastEnd)
    else
      var methods := chunk[2..2 + chunk[1] as int];
      if accept.Code() in methods then Ok(HandshakeOutcome(true, [5, accept.Code()]))
      else Ok(HandshakeOutcome(false, [5, 0xFF]))
  }

  /** A complete greeting is accepted exactly when one of the NMETHODS
      offered bytes names the server's method; the second reply byte is
      then that method, and 0xFF ("no acceptable methods") otherwise. */
  lemma HandshakeFollowsRfc1928(chunk: seq<Byte>, accept: AuthMethodType)
    ensures HandshakeResponse(chunk, accept).Ok? ==>
      (HandshakeResponse(chunk, accept).value.accepted <==> Offers(chunk, accept.Code()))
  {
    if 2 <= |chunk| && 2 + chunk[1] as int <= |chunk| {
      var methods := chunk[2..2 + chunk[1] as int];
      if accept.Code() in methods {
        var j :| 0 <= j < |methods| && methods[j] == accept.Code();
        assert chunk[2 + j] == accept.Code();
      }
      if Offers(chunk, accept.Code()) {
        var i :| 2 <= i < 2 + chunk[1] as int && chunk[i] == accept.Code();
        assert methods[i - 2] == accept.Code();
      }
    }
  }

  /** The version byte does not influence the negotiation. */
  lemma HandshakeIgnoresVersion(chunk: seq<Byte>, version: Byte, accept: AuthMethodType)
    requires 1 <= |chunk|
    ensures HandshakeResponse(chunk[0 := version], accept) == HandshakeResponse(chunk, accept)
  {
    var c := chunk[0 := version];
    if 2 <= |chunk| && 2 + chunk[1] as int <= |chunk| {
      assert c[2..2 + chunk[1] as int] == chunk[2..2 + chunk[1] as int];
    }
  }

  // ---- request processing ---------------------------------------------------

  datatype CmdOutcome = CmdOutcome(succeeded: bool, actions: seq<Action>)

  /** The address-type switch of request processing: where a request may
      be connected to, or the reply that refuses it.  `dns` is what the DNS
      cache answered for the requested host; only Domain requests use it. */
  function AddressCheck(cmd: Command, dns: string): (r: Result<string, CommandReply>)
    ensures r.Ok? <==> AddressTypeOf(cmd.addressType).Some? && (cmd.addressType == Domain.Code() ==> dns != "")
    ensures r.Ok? ==> r.value == if cmd.addressType == Domain.Code() then dns else cmd.host
    ensures r.Err? ==>
      && r.error == CommandReply(r.error.replyType, cmd.addressType, cmd.host, cmd.port)
      && r.error.replyType == if AddressTypeOf(cmd.addressType).None? then AddressTypeNotSupported else HostUnreachable
  {
    match AddressTypeOf(cmd.addressType)
    case Some(Domain) =>
      if dns == "" then Err(CommandReply(HostUnreachable, Domain.Code(), cmd.host, cmd.port)) else Ok(dns)
    case Some(_) => Ok(cmd.host)
    case None => Err(CommandReply(AddressTypeNotSupported, cmd.addressType, cmd.host, cmd.port))
  }

  /** The replies written to the client, in order. */
  function SentReplies(actions: seq<Action>): seq<CommandReply>
    decreases |actions|
  {
    if actions == [] then []
    else (if actions[0].SendReply? then [actions[0].reply] else []) + SentReplies(actions[1..])
  }

  /** The connections opened to targets, in order. */
  function Dials(actions: seq<Action>): seq<Action>
    decreases |actions|
  {
    if actions == [] then []
    else (if actions[0].Dial? then [actions[0]] else []) + Dials(actions[1..])
  }

  lemma {:induction false} SentRepliesConcat(a: seq<Action>, b: seq<Action>)
    ensures SentReplies(a + b) == SentReplies(a) + SentReplies(b)
    ensures Dials(a + b) == Dials(a) + Dials(b)
    decreases |a|
  {
    if a == [] {
      assert a + b == b;
    } else {
      var ab := a + b;
      assert ab[0] == a[0] && ab[1..] == a[1..] + b;
      SentRepliesConcat(a[1..], b);
      var r: seq<CommandReply> := if a[0].SendReply? then [a[0].reply] else [];
      assert SentReplies(ab) == r + SentReplies(a[1..] + b);
      assert r + (SentReplies(a[1..]) + SentReplies(b)) == (r + SentReplies(a[1..])) + SentReplies(b);
      var d: seq<Action> := if a[0].Dial? then [a[0]] else [];
      assert Dials(ab) == d + Dials(a[1..] + b);
      assert d + (Dials(a[1..]) + Dials(b)) == (d + Dials(a[1..])) + Dials(b);
    }
  }

  /** What `processCmd` does with a decoded request: an unknown command ends
      the socket at once (processing goes on); the address check runs before
      the command dispatch; Connect detaches the parser and dials; every
      other outcome writes one reply and reports failure. */
  function ProcessCommand(cmd: Command, dns: string): (o: CmdOutcome)
    ensures o.succeeded <==> CommandTypeOf(cmd.commandType) == Some(Connect) && AddressCheck(cmd, dns).Ok?
  {
    var early := if CommandTypeOf(cmd.commandType).None? then [End] else [];
    match AddressCheck(cmd, dns)
    case Err(reply) =>
      CmdOutcome(false, early + [SendReply(reply)])
    case Ok(target) =>
      if CommandTypeOf(cmd.commandType) == Some(Connect) then
        CmdOutcome(true, [RemoveDataListeners,
                          Dial(target, cmd.port, CommandReply(Succeeded, cmd.addressType, target, cmd.port))])
      else
        CmdOutcome(false, early + [SendReply(CommandReply(CommandNotSupported, cmd.addressType, cmd.host, cmd.port))])
  }

  /** Request processing writes at most one reply and opens at most one
      connection, and it does exactly one of the two. */
  lemma OneReplyOrOneDial(cmd: Command, dns: string)
    ensures var o := ProcessCommand(cmd, dns);
      && (o.succeeded ==> SentReplies(o.actions) == [] && |Dials(o.actions)| == 1)
      && (!o.succeeded ==> |SentReplies(o.actions)| == 1 && Dials(o.actions) == [])
  {
    var o := ProcessCommand(cmd, dns);
    var early: seq<Action> := if CommandTypeOf(cmd.commandType).None? then [End] else [];
    if o.succeeded {
      assert o.actions == [RemoveDataListeners] + [o.actions[1]];
      SentRepliesConcat([RemoveDataListeners], [o.actions[1]]);
    } else {
      assert o.actions == early + [o.actions[|o.actions| - 1]];
      SentRepliesConcat(early, [o.actions[|o.actions| - 1]]);
    }
  }

  /** A Domain request whose name does not resolve is refused with
      HostUnreachable, echoing the requested name and port, whatever the
      command; nothing is dialled. */
  lemma UnresolvableDomainIsHostUnreachable(cmd: Command)
    requires cmd.addressType == Domain.Code()
    ensures var o := ProcessCommand(cmd, "");
      && !o.succeeded && Dials(o.actions) == []
      && SentReplies(o.actions) == [CommandReply(HostUnreachable, Domain.Code(), cmd.host, cmd.port)]
  {
    var o := ProcessCommand(cmd, "");
    var early: seq<Action> := if CommandTypeOf(cmd.commandType).None? then [End] else [];
    assert o.actions == early + [SendReply(CommandReply(HostUnreachable, Domain.Code(), cmd.host, cmd.port))];
    SentRepliesConcat(early, [o.actions[|o.actions| - 1]]);
  }

  /** An unknown address type is refused with AddressTypeNotSupported,
      whatever the command and the DNS answer. */
  lemma UnknownAddressTypeIsRefused(cmd: Command, dns: string)
    requires AddressTypeOf(cmd.addressType).None?
    ensures var o := ProcessCommand(cmd, dns);
      && !o.succeeded && Dials(o.actions) == []
      && SentReplies(o.actions) == [CommandReply(AddressTypeNotSupported, cmd.addressType, cmd.host, cmd.port)]
  {
    var o := ProcessCommand(cmd, dns);
    var early: seq<Action> := if CommandTypeOf(cmd.commandType).None? then [End] else [];
    assert o.actions == early + [SendReply(CommandReply(AddressTypeNotSupported, cmd.addressType, cmd.host, cmd.port))];
    SentRepliesConcat(early, [o.actions[|o.actions| - 1]]);
  }

  /** A Connect whose address passes dials the resolved address for a
      Domain request and the requested host otherwise, always on the
      requested port, and writes no reply now; the reply sent once the
      target is connected is Succeeded with the request's address type but
      the dialled host and port. */
  lemma ConnectDialsTarget(cmd: Command, dns: string)
    requires CommandTypeOf(cmd.commandType) == Some(Connect) && AddressCheck(cmd, dns).Ok?
    ensures var o := ProcessCommand(cmd, dns);
      var target := if cmd.addressType == Domain.Code() then dns else cmd.host;
      && o.succeeded && SentReplies(o.actions) == []
      && o.actions == [RemoveDataListeners,
                       Dial(target, cmd.port, CommandReply(Succeeded, cmd.addressType, target, cmd.port))]
  {
    OneReplyOrOneDial(cmd, dns);
  }

  /** Bind, UdpAssociate and unknown commands whose address passes all get
      one CommandNotSupported reply echoing the request; an unknown command
      has ended the socket before that reply. */
  lemma OtherCommandsNotSupported(cmd: Command, dns: string)
    requires CommandTypeOf(cmd.commandType) != Some(Connect) && AddressCheck(cmd, dns).Ok?
    ensures var o := ProcessCommand(cmd, dns);
      && !o.succeeded && Dials(o.actions) == []
      && SentReplies(o.actions) == [CommandReply(CommandNotSupported, cmd.addressType, cmd.host, cmd.port)]
      && (CommandTypeOf(cmd.commandType).None? <==> o.actions[0] == End)
  {
    var o := ProcessCommand(cmd, dns);
    var early: seq<Action> := if CommandTypeOf(cmd.commandType).None? then [End] else [];
    assert o.actions == early + [SendReply(CommandReply(CommandNotSupported, cmd.addressType, cmd.host, cmd.port))];
    SentRepliesConcat(early, [o.actions[|o.actions| - 1]]);
  }

  /** Every reply written synchronously for a decoded request, except the
      AddressTypeNotSupported one, serialises without fault and repeats the
      request's address bytes exactly; that one cannot be serialised. */
  lemma SentRepliesSerialise(chunk: seq<Byte>, dns: string)
    requires DecodeCommand(chunk).Ok?
    ensures var cmd := DecodeCommand(chunk).value;
      forall reply <- SentReplies(ProcessCommand(cmd, dns).actions) ::
        if reply.replyType == AddressTypeNotSupported then EncodeReply(reply) == Err(NegativeSize)
        else 4 <= BufferLength(reply) <= |chunk|
             && EncodeReply(reply) == Ok([5, reply.replyType.Code(), 0, chunk[3]] + chunk[4..BufferLength(reply)])
  {
    var cmd := DecodeCommand(chunk).value;
    var o := ProcessCommand(cmd, dns);
    OneReplyOrOneDial(cmd, dns);
    var early: seq<Action> := if CommandTypeOf(cmd.commandType).None? then [End] else [];
    match AddressCheck(cmd, dns)
    case Err(reply) =>
      assert o.actions == early + [SendReply(reply)];
      SentRepliesConcat(early, [SendReply(reply)]);
      if reply.replyType == HostUnreachable {
        ReplyEchoesRequest(chunk, HostUnreachable);
      }
    case Ok(_) =>
      if !o.succeeded {
        var reply := CommandReply(CommandNotSupported, cmd.addressType, cmd.host, cmd.port);
        assert o.actions == early + [SendReply(reply)];
        SentRepliesConcat(early, [SendReply(reply)]);
        ReplyEchoesRequest(chunk, CommandNotSupported);
      }
  }

  // ---- carrying out the actions ---------------------------------------------

  /** The actions that happened, and the fault that stopped the rest. */
  datatype Handled = Handled(actions: seq<Action>, fault: Option<Fault>)

  /** Carrying out actions in order.  Writing a reply serialises it first;
      a reply that cannot be serialised throws, so neither it nor anything
      after it happens. */
  function Perform(actions: seq<Action>): (h: Handled)
    ensures h.actions <= actions
    ensures h.fault.None? ==> h.actions == actions
    ensures h.fault.Some? ==>
      && |h.actions| < |actions| && actions[|h.actions|].SendReply?
      && EncodeReply(actions[|h.actions|].reply) == Err(h.fault.value)
    ensures forall i :: 0 <= i < |h.actions| && h.actions[i].SendReply? ==> EncodeReply(h.actions[i].reply).Ok?
    decreases |actions|
  {
    if actions == [] then Handled([], None)
    else if actions[0].SendReply? && EncodeReply(actions[0].reply).Err? then
      Handled([], Some(EncodeReply(actions[0].reply).error))
    else
      var rest := Perform(actions[1..]);
      assert forall i :: 1 <= i < 1 + |rest.actions| ==> ([actions[0]] + rest.actions)[i] == rest.actions[i - 1];
      Handled([actions[0]] + rest.actions, rest.fault)
  }

  predicate NoReplies(actions: seq<Action>) {
    forall i :: 0 <= i < |actions| ==> !actions[i].SendReply?
  }

  /** Actions before the first reply all happen; that reply is then either
      serialised and written, or throws. */
  lemma {:induction false} PerformThroughReply(pre: seq<Action>, a: Action)
    requires NoReplies(pre)
    ensures Perform(pre + [a]) ==
      if a.SendReply? && EncodeReply(a.reply).Err? then Handled(pre, Some(EncodeReply(a.reply).error))
      else Handled(pre + [a], None)
    decreases |pre|
  {
    var pa := pre + [a];
    if pre == [] {
      assert pa == [a] && pa[1..] == [];
    } else {
      assert pa[0] == pre[0] && pa[1..] == pre[1..] + [a];
      PerformThroughReply(pre[1..], a);
      assert [pre[0]] + pre[1..] == pre;
      assert [pre[0]] + (pre[1..] + [a]) == pa;
    }
  }

  // ---- the client state switch ----------------------------------------------

  datatype StepResult = StepResult(next: ClientSocketState, actions: seq<Action>, fault: Option<Fault>)

  /** The `'data'` handler for one chunk in state `state`, with `accept`
      the server's method and `dns` the cache's answer for a Domain request.
      From `Connected` the state becomes `Handshaking` before negotiating;
      acceptance of NoAuth moves on to `CmdProcessing`; a request that
      succeeds moves to `DataTransmission`; every other state ignores data.
      A fault leaves the state as it was assigned before the throw. */
  function Step(state: ClientSocketState, accept: AuthMethodType, chunk: seq<Byte>, dns: string): (r: StepResult)
    ensures state.Code() <= r.next.Code()
    ensures r.next == Authenticate ==> state == Authenticate
    ensures r.next == DataTransmission ==> state == CmdProcessing || state == DataTransmission
    ensures r.fault.Some? ==> r.next == if state == Connected then Handshaking else state
  {
    match state
    case Connected =>
      (match HandshakeResponse(chunk, accept)
       case Err(f) => StepResult(Handshaking, [], Some(f))
       case Ok(h) =>
         if !h.accepted then StepResult(Handshaking, [Write(h.reply), End], None)
         else if accept == NoAuth then StepResult(CmdProcessing, [Write(h.reply)], None)
         else StepResult(Handshaking, [Write(h.reply)], None))
    case CmdProcessing =>
      (match DecodeCommand(chunk)
       case Err(f) => StepResult(CmdProcessing, [], Some(f))
       case Ok(cmd) =>
         var o := ProcessCommand(cmd, dns);
         var h := Perform(o.actions);
         if h.fault.Some? then StepResult(CmdProcessing, h.actions, h.fault)
         else if o.succeeded then StepResult(DataTransmission, h.actions, None)
         else StepResult(CmdProcessing, h.actions + [End], None))
    case _ => StepResult(state, [], None)
  }

  /** The state after a sequence of chunks.  A fault aborts the handling of
      its chunk only; the next chunk is handled in the state it left. */
  function Run(state: ClientSocketState, accept: AuthMethodType, chunks: seq<seq<Byte>>, answers: seq<string>): (r: ClientSocketState)
    requires |answers| == |chunks|
    ensures state.Code() <= r.Code()
    decreases |chunks|
  {
    if chunks == [] then state
    else Run(Step(state, accept, chunks[0], answers[0]).next, accept, chunks[1..], answers[1..])
  }

  /** A first chunk faults exactly when it is shorter than its method list.
      Otherwise the connection moves to `CmdProcessing` exactly when the
      server is NoAuth and NoAuth is offered, after writing `05 00`; a
      greeting that does not offer the server's method gets `05 FF`, the
      socket is ended and the connection stays `Handshaking`. */
  lemma NegotiationMovesState(chunk: seq<Byte>, accept: AuthMethodType, dns: string)
    ensures var s := Step(Connected, accept, chunk, dns);
      && (s.fault.Some? <==> |chunk| < 2 || |chunk| < 2 + chunk[1] as int)
      && (s.next == CmdProcessing <==> accept == NoAuth && Offers(chunk, 0x00))
      && (s.next == CmdProcessing ==> s.actions == [Write([5, 0x00])])
      && (s.fault.None? && !Offers(chunk, accept.Code()) ==>
            s == StepResult(Handshaking, [Write([5, 0xFF]), End], None))
  {
    HandshakeFollowsRfc1928(chunk, accept);
  }

  /** In `Handshaking` every later chunk is ignored, so a connection whose
      negotiation failed never reaches `CmdProcessing`. */
  lemma {:induction false} HandshakingIsFinal(accept: AuthMethodType, chunks: seq<seq<Byte>>, answers: seq<string>)
    requires |answers| == |chunks|
    ensures Run(Handshaking, accept, chunks, answers) == Handshaking
    decreases |chunks|
  {
    if chunks != [] {
      HandshakingIsFinal(accept, chunks[1..], answers[1..]);
    }
  }

  /** Carrying out what `processCmd` decided for a decoded request: an
      unknown address type throws while its AddressTypeNotSupported reply is
      serialised, so only the early end of an unknown command happens;
      otherwise every action happens. */
  lemma PerformProcessCommand(chunk: seq<Byte>, dns: string)
    requires DecodeCommand(chunk).Ok?
    ensures var cmd := DecodeCommand(chunk).value;
      var o := ProcessCommand(cmd, dns);
      var early: seq<Action> := if CommandTypeOf(cmd.commandType).None? then [End] else [];
      Perform(o.actions) ==
        if AddressTypeOf(cmd.addressType).None? then Handled(early, Some(NegativeSize))
        else Handled(o.actions, None)
  {
    var cmd := DecodeCommand(chunk).value;
    var o := ProcessCommand(cmd, dns);
    var early: seq<Action> := if CommandTypeOf(cmd.commandType).None? then [End] else [];
    assert NoReplies(early);
    match AddressCheck(cmd, dns)
    case Err(reply) =>
      assert o.actions == early + [SendReply(reply)];
      PerformThroughReply(early, SendReply(reply));
      if reply.replyType == HostUnreachable {
        ReplyEchoesRequest(chunk, HostUnreachable);
      }
    case Ok(_) =>
      if o.succeeded {
        assert NoReplies([RemoveDataListeners]);
        assert o.actions == [RemoveDataListeners] + [o.actions[1]];
        PerformThroughReply([RemoveDataListeners], o.actions[1]);
      } else {
        var reply := CommandReply(CommandNotSupported, cmd.addressType, cmd.host, cmd.port);
        assert o.actions == early + [SendReply(reply)];
        PerformThroughReply(early, SendReply(reply));
        ReplyEchoesRequest(chunk, CommandNotSupported);
      }
  }

  /** How one decoded request moves the connection.  An unknown address
      type faults with nothing written and the state left `CmdProcessing`;
      otherwise every action of `ProcessCommand` happens, a request that
      succeeds moves to `DataTransmission`, and one that is refused ends
      the socket but stays in `CmdProcessing`, so a further chunk would be
      parsed as a new request. */
  lemma RequestOutcome(chunk: seq<Byte>, accept: AuthMethodType, dns: string)
    requires DecodeCommand(chunk).Ok?
    ensures var cmd := DecodeCommand(chunk).value;
      var o := ProcessCommand(cmd, dns);
      var early: seq<Action> := if CommandTypeOf(cmd.commandType).None? then [End] else [];
      Step(CmdProcessing, accept, chunk, dns) ==
        if AddressTypeOf(cmd.addressType).None? then StepResult(CmdProcessing, early, Some(NegativeSize))
        else if o.succeeded then StepResult(DataTransmission, o.actions, None)
        else StepResult(CmdProcessing, o.actions + [End], None)
  {
    PerformProcessCommand(chunk, dns);
  }

  /** Once in `DataTransmission`, chunks are no longer parsed: the state
      stays and no action follows. */
  lemma {:induction false} DataTransmissionIsFinal(accept: AuthMethodType, chunks: seq<seq<Byte>>, answers: seq<string>)
    requires |answers| == |chunks|
    ensures Run(DataTransmission, accept, chunks, answers) == DataTransmission
    ensures forall c, d :: Step(DataTransmission, accept, c, d) == StepResult(DataTransmission, [], None)
    decreases |chunks|
  {
    if chunks != [] {
      DataTransmissionIsFinal(accept, chunks[1..], answers[1..]);
    }
  }

  /** No sequence of chunks, faulting or not, leads to the unused
      `Authenticate` state. */
  lemma {:induction false} AuthenticateUnreachable(state: ClientSocketState, accept: AuthMethodType,
                                                   chunks: seq<seq<Byte>>, answers: seq<string>)
    requires |answers| == |chunks| && state != Authenticate
    ensures Run(state, accept, chunks, answers) != Authenticate
    decreases |chunks|
  {
    if chunks != [] {
      var s := Step(state, accept, chunks[0], answers[0]);
      AuthenticateUnreachable(s.next, accept, chunks[1..], answers[1..]);
    }
  }

  /** The negotiations of RFC 1928 section 3 for a NoAuth server: offering
      only NoAuth is answered `05 00` and proceeds; offering only GSSAPI is
      answered `05 FF` and the socket is ended; a greeting cut short before
      its method list faults. */
  lemma NegotiationExamples()
    ensures Step(Connected, NoAuth, [5, 1, 0], "") == StepResult(CmdProcessing, [Write([5, 0x00])], None)
    ensures Step(Connected, NoAuth, [5, 1, 1], "") == StepResult(Handshaking, [Write([5, 0xFF]), End], None)
    ensures Step(Connected, NoAuth, [5, 2, 0], "") == StepResult(Handshaking, [], Some(ReadPastEnd))
  {
    var offered: seq<Byte> := [5, 1, 0];
    assert offered[2..3] == [0];
    var gssapi: seq<Byte> := [5, 1, 1];
    assert gssapi[2..3] == [1];
  }

  /** A Connect request to 127.0.0.1 port 9999 detaches the parser and
      dials "127.0.0.1" on port 9999; where the dial goes is outside the
      model. */
  lemma ConnectExample()
    ensures Step(CmdProcessing, NoAuth, [5, 1, 0, 1, 127, 0, 0, 1, 0x27, 0x0F], "")
      == StepResult(DataTransmission,
                    [RemoveDataListeners, Dial("127.0.0.1", 9999, CommandReply(Succeeded, 1, "127.0.0.1", 9999))], None)
  {
    var chunk: seq<Byte> := [5, 1, 0, 1, 127, 0, 0, 1, 0x27, 0x0F];
    assert chunk[4..8] == [127, 0, 0, 1];
    LoopbackText();
    RequestOutcome(chunk, NoAuth, "");
  }

  /** Address type 2 is not defined by RFC 1928: its request throws before
      any reply is written, and only an unknown command has ended the
      socket by then. */
  lemma UnknownAddressTypeExample()
    ensures Step(CmdProcessing, NoAuth, [5, 1, 0, 2], "") == StepResult(CmdProcessing, [], Some(NegativeSize))
    ensures Step(CmdProcessing, NoAuth, [5, 9, 0, 2], "") == StepResult(CmdProcessing, [End], Some(NegativeSize))
  {
    RequestOutcome([5, 1, 0, 2], NoAuth, "");
    RequestOutcome([5, 9, 0, 2], NoAuth, "");
  }

  /** A fault ends the handling of one chunk, not the connection: a request
      cut short faults in `CmdProcessing`, and the Connect request sent after
      it is processed. */
  lemma FaultDoesNotStopConnection()
    ensures Run(CmdProcessing, NoAuth, [[5], [5, 1, 0, 1, 127, 0, 0, 1, 0x27, 0x0F]], ["", ""]) == DataTransmission
  {
    var connect: seq<Byte> := [5, 1, 0, 1, 127, 0, 0, 1, 0x27, 0x0F];
    var chunks: seq<seq<Byte>> := [[5], connect];
    assert Step(CmdProcessing, NoAuth, [5], "").next == CmdProcessing;
    assert Run(CmdProcessing, NoAuth, [connect], [""]) == DataTransmission by {
      ConnectExample();
    }
    assert chunks[1..] == [connect];
  }

  /** The DNS name a chunk would have `processCmd` look up, if any. */
  function DomainToResolve(chunk: seq<Byte>): (q: Option<string>)
    ensures q.Some? <==> DecodeCommand(chunk).Ok? && DecodeCommand(chunk).value.addressType == Domain.Code()
    ensures q.Some? ==> q.value == DecodeCommand(chunk).value.host
  {
    match DecodeCommand(chunk)
    case Err(_) => None
    case Ok(cmd) => if AddressTypeOf(cmd.addressType) == Some(Domain) then Some(cmd.host) else None
  }

  /** `Socks5Server` with the method it accepts. */
  class Socks5Server {
    const acceptAuthMethod: AuthMethodType

    constructor ()
      ensures acceptAuthMethod == NoAuth
    {
      acceptAuthMethod := NoAuth;
    }

    /** `handshake`: collects the offered methods in a loop, then writes the
        two-byte answer into a fresh buffer. */
    method Handshake(chunk: seq<Byte>) returns (r: Result<HandshakeOutcome, Fault>)
      ensures r == HandshakeResponse(chunk, acceptAuthMethod)
    {
      if |chunk| < 2 {
        return Err(ReadPastEnd);
      }
      var numOfMethods := chunk[1];
      var methods: seq<Byte> := [];
      var i := 0;
      while i < numOfMethods
        invariant 0 <= i <= numOfMethods && 2 + i <= |chunk|
        invariant methods == chunk[2..2 + i]
      {
        if i + 2 >= |chunk| {
          return Err(ReadPastEnd);
        }
        methods := methods + [chunk[i + 2]];
        i := i + 1;
      }
      var buffer := new Byte[2](_ => 0);
      buffer[0] := 5;
      if acceptAuthMethod.Code() in methods {
        buffer[1] := acceptAuthMethod.Code();
        assert buffer[..] == [5, acceptAuthMethod.Code()];
        r := Ok(HandshakeOutcome(true, buffer[..]));
      } else {
        buffer[1] := 0xFF;
        assert buffer[..] == [5, 0xFF];
        r := Ok(HandshakeOutcome(false, buffer[..]));
      }
    }

    /** `processCmd`: decodes the request, runs the two switches of
        `Decide`, and finally serialises and writes the reply, if there is
        one.  `succeeded` is the value returned; when a fault is reported
        the source throws instead of returning. */
    method ProcessCmd(chunk: seq<Byte>, cache: DnsCache, now: int, resolved: Option<string>)
      returns (succeeded: bool, h: Handled)
      modifies cache, cache.mcache
      ensures DomainToResolve(chunk).None? ==>
        && cache.mcache == old(cache.mcache) && cache.Store() == old(cache.Store())
        && match DecodeCommand(chunk)
           case Err(f) => !succeeded && h == Handled([], Some(f))
           case Ok(cmd) =>
             succeeded == ProcessCommand(cmd, "").succeeded && h == Perform(ProcessCommand(cmd, "").actions)
      ensures DomainToResolve(chunk).Some? ==>
        var l := Lookup(old(cache.Store()), DomainToResolve(chunk).value, now, resolved);
        var o := ProcessCommand(DecodeCommand(chunk).value, l.value);
        && cache.mcache != null && (old(cache.mcache) != null ==> cache.mcache == old(cache.mcache))
        && cache.Store() == l.store
        && succeeded == o.succeeded && h == Perform(o.actions)
    {
      var parsed := ParseCommand(chunk);
      if parsed.Err? {
        return false, Handled([], Some(parsed.error));
      }
      var cmd := parsed.value;
      ghost var dns := if DomainToResolve(chunk).Some? then Lookup(cache.Store(), cmd.host, now, resolved).value else "";
      var isCommandSucceeded, actions, commandReply := Decide(cmd, cache, now, resolved);
      PerformProcessCommand(chunk, dns);
      if commandReply.Some? {
        var replyBuffer := GenerateBuffer(commandReply.value);
        if replyBuffer.Err? {
          assert (actions + [SendReply(commandReply.value)])[|actions|] == SendReply(commandReply.value);
          return false, Handled(actions, Some(replyBuffer.error));
        }
        actions := actions + [SendReply(commandReply.value)];
      }
      succeeded, h := isCommandSucceeded, Handled(actions, None);
    }

    /** The two switches of `processCmd` over the variables they reassign:
        an unknown command ends the socket at once; the address switch
        queries the DNS cache for a Domain request and may set a refusal;
        only then does the command switch detach the parser and dial for
        Connect, or set CommandNotSupported.  The actions taken and the
        reply still to be written are those of `ProcessCommand` with the
        cache's answer. */
    method Decide(cmd: Command, cache: DnsCache, now: int, resolved: Option<string>)
      returns (isCommandSucceeded: bool, actions: seq<Action>, commandReply: Option<CommandReply>)
      modifies cache, cache.mcache
      ensures commandReply.None? <==> isCommandSucceeded
      ensures commandReply.Some? ==> actions == if CommandTypeOf(cmd.commandType).None? then [End] else []
      ensures AddressTypeOf(cmd.addressType) != Some(Domain) ==>
        && cache.mcache == old(cache.mcache) && cache.Store() == old(cache.Store())
        && ProcessCommand(cmd, "")
           == CmdOutcome(isCommandSucceeded, actions + if commandReply.Some? then [SendReply(commandReply.value)] else [])
      ensures AddressTypeOf(cmd.addressType) == Some(Domain) ==>
        var l := Lookup(old(cache.Store()), cmd.host, now, resolved);
        && cache.mcache != null && (old(cache.mcache) != null ==> cache.mcache == old(cache.mcache))
        && cache.Store() == l.store
        && ProcessCommand(cmd, l.value)
           == CmdOutcome(isCommandSucceeded, actions + if commandReply.Some? then [SendReply(commandReply.value)] else [])
    {
      var readyToConnectRemoteHost := cmd.host;
      var readyToConnectRemotePort := cmd.port;
      commandReply := None;
      isCommandSucceeded := true;
      actions := [];
      ghost var dns := "";

      if CommandTypeOf(cmd.commandType).None? {
        actions := actions + [End];
      }
      ghost var early := actions;
      assert early == if CommandTypeOf(cmd.commandType).None? then [End] else [];

      match AddressTypeOf(cmd.addressType) {
      case Some(Domain) =>
        var dnsResolveRecord, _ := cache.DnsQuery(cmd.host, now, resolved);
        dns := dnsResolveRecord;
        if dnsResolveRecord == "" {
          commandReply := Some(CommandReply(HostUnreachable, Domain.Code(), cmd.host, cmd.port));
          isCommandSucceeded := false;
        } else {
          readyToConnectRemoteHost := dnsResolveRecord;
        }
      case Some(IPv4) =>
      case Some(IPv6) =>
      case None =>
        commandReply := Some(CommandReply(AddressTypeNotSupported, cmd.addressType, cmd.host, cmd.port));
        isCommandSucceeded := false;
      }

      if isCommandSucceeded {
        match CommandTypeOf(cmd.commandType) {
        case Some(Connect) =>
          actions := actions + [RemoveDataListeners,
                                Dial(readyToConnectRemoteHost, readyToConnectRemotePort,
                                     CommandReply(Succeeded, cmd.addressType, readyToConnectRemoteHost, readyToConnectRemotePort))];
        case _ =>
          commandReply := Some(CommandReply(CommandNotSupported, cmd.addressType, cmd.host, cmd.port));
          isCommandSucceeded := false;
        }
      }

      ghost var decided := actions + if commandReply.Some? then [SendReply(commandReply.value)] else [];
      assert AddressCheck(cmd, dns).Err? ==> decided == early + [SendReply(AddressCheck(cmd, dns).error)];
      assert AddressCheck(cmd, dns).Ok? ==> AddressCheck(cmd, dns).value == readyToConnectRemoteHost;
      assert isCommandSucceeded ==> decided == [RemoveDataListeners,
                Dial(readyToConnectRemoteHost, cmd.port, CommandReply(Succeeded, cmd.addressType, readyToConnectRemoteHost, cmd.port))];
      assert AddressCheck(cmd, dns).Ok? && !isCommandSucceeded ==>
        decided == early + [SendReply(CommandReply(CommandNotSupported, cmd.addressType, cmd.host, cmd.port))];
      assert CmdOutcome(isCommandSucceeded, decided) == ProcessCommand(cmd, dns);
    }
  }

  /** One client connection: the `clientStats` variable of the connection
      handler and the server it belongs to. */
  class Connection {
    const server: Socks5Server
    var clientStats: ClientSocketState

    constructor (server: Socks5Server)
      ensures this.server == server && clientStats == Connected
    {
      this.server := server;
      clientStats := Connected;
    }

    /** The `'data'` handler, proved to follow `Step`, with the DNS answer
        being the one the shared cache gives.  A reported fault is the
        exception that escapes the handler; `clientStats` keeps what was
        assigned before it. */
    method OnData(chunk: seq<Byte>, cache: DnsCache, now: int, resolved: Option<string>)
      returns (actions: seq<Action>, fault: Option<Fault>)
      modifies this, cache, cache.mcache
      ensures
        var q := if old(clientStats) == CmdProcessing then DomainToResolve(chunk) else None;
        var o := if q.Some? then Lookup(old(cache.Store()), q.value, now, resolved)
                 else LookupOutcome("", false, old(cache.Store()));
        var s := Step(old(clientStats), server.acceptAuthMethod, chunk, o.value);
        && clientStats == s.next && actions == s.actions && fault == s.fault
        && cache.Store() == o.store
        && (q.None? ==> cache.mcache == old(cache.mcache))
        && (old(cache.mcache) != null ==> cache.mcache == old(cache.mcache))
    {
      actions, fault := [], None;
      match clientStats
      case Connected =>
        clientStats := Handshaking;
        var h := server.Handshake(chunk);
        if h.Err? {
          return [], Some(h.error);
        }
        if !h.value.accepted {
          actions := [Write(h.value.reply), End];
        } else {
          if server.acceptAuthMethod == NoAuth {
            clientStats := CmdProcessing;
          }
          actions := [Write(h.value.reply)];
        }
      case CmdProcessing =>
        var succeeded, h := server.ProcessCmd(chunk, cache, now, resolved);
        actions, fault := h.actions, h.fault;
        if h.fault.None? {
          if !succeeded {
            actions := actions + [End];
          } else {
            clientStats := DataTransmission;
          }
        }
      case DataTransmission =>
      case _ =>
    }
  }
}
