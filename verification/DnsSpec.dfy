/** The user, client and channel automata as one transition system (POP3ClientCppUnit/UserAuto.cpp, ClAuto.cpp,
    ChAuto.cpp, const.h).

    A step dispatches the message at the head of one mailbox, or is one of the two things the listener thread may
    do at any moment: pass on a reply from the server, or notice that the server has disconnected. */
module DnsSpec {
  import opened Options
  import opened Buffers

  const USER_IDLE: uint16 := 0x01
  const USER_DATA_INPUT: uint16 := 0x02
  const USER_DATA_SENT: uint16 := 0x03
  const RETURN_DATA: uint16 := 0x04
  const CLIENT_IDLE: uint16 := 0x05
  const DNS_REQUEST_SENT: uint16 := 0x06
  const CHANNEL_REPLY: uint16 := 0x07
  const TIMER_EXPIRED: uint16 := 0x08
  const CHECK_LOCAL_TABLE: uint16 := 0x09
  const CHANNEL_IDLE: uint16 := 0x0a
  const CREATE_SOCKET: uint16 := 0x0b
  const REQUEST_SEND: uint16 := 0x0d
  const REQUEST_RECIVE: uint16 := 0x0f
  const CHANNEL_DISCONNECT: uint16 := 0x10

  type Bytes = seq<uint8>

  /** A message as far as the automata look at it; the data is that of its one parameter, if any. */
  datatype Msg = Msg(code: uint16, data: Bytes)

  datatype UserState = UserIdle | DataInput | ToClientData | ReturnData
  datatype ClientState = ClientIdle | CheckLocalTable | InputFromUser | DnsRequest | DnsRecived
  datatype ChannelState = ChannelIdle | ChannelRequest | Connect | Connected | Disconnect | ToClientSent

  datatype User = User(state: UserState, input: Bytes)
  datatype Client = Client(state: ClientState, input: Bytes, output: Bytes, timer: bool)
  datatype Channel = Channel(state: ChannelState, input: Bytes, firstStartFlag: nat)

  datatype Sys = Sys(user: User, client: Client, channel: Channel,
                     userBox: seq<Msg>, clientBox: seq<Msg>, channelBox: seq<Msg>)

  /** What the outside world contributes to a step: the name typed in, the line found in the local table. */
  datatype Op =
    | UserTurn(typed: Bytes)
    | ClientTurn(found: Option<Bytes>)
    | ChannelTurn
    | ServerReply(data: Bytes)
    | ServerDisconnect

  datatype UserProc = SetAllIdle | ReadConsole | PassToClient | GetFromClient | UserNothing
  datatype ClientProc =
    | IdleState | GetFromUser | CheckTable | PassToChannel | GetFromChannel | PassToUser | TimerExpired | ClientNothing
  datatype ChannelProc =
    | ChannelIdleState | GetRequest | ConnectState | ConnectedState | ReceiveRequest | DisconnectState | PassReply
    | ChannelNothing

  // ---------------------------------------------------------------- which handler

  function UserHandler(state: UserState, code: uint16): UserProc {
    match state
    case UserIdle => if code == USER_IDLE then SetAllIdle else UserNothing
    case DataInput => if code == USER_DATA_INPUT then ReadConsole else UserNothing
    case ToClientData => if code == USER_DATA_SENT then PassToClient else UserNothing
    case ReturnData => if code == RETURN_DATA then GetFromClient else UserNothing
  }

  function ClientHandler(state: ClientState, code: uint16): ClientProc {
    match state
    case ClientIdle => if code == CLIENT_IDLE then IdleState else ClientNothing
    case InputFromUser => if code == USER_DATA_SENT then GetFromUser else ClientNothing
    case CheckLocalTable => if code == CHECK_LOCAL_TABLE then CheckTable else ClientNothing
    case DnsRequest =>
      if code == DNS_REQUEST_SENT then PassToChannel else if code == TIMER_EXPIRED then TimerExpired else ClientNothing
    case DnsRecived =>
      if code == CHANNEL_REPLY then GetFromChannel else if code == RETURN_DATA then PassToUser else ClientNothing
  }

  function ChannelHandler(state: ChannelState, code: uint16): ChannelProc {
    match state
    case ChannelIdle => if code == CHANNEL_IDLE then ChannelIdleState else ChannelNothing
    case ChannelRequest => if code == DNS_REQUEST_SENT then GetRequest else ChannelNothing
    case Connect => if code == CREATE_SOCKET then ConnectState else ChannelNothing
    case Connected =>
      if code == REQUEST_SEND then ConnectedState else if code == REQUEST_RECIVE then ReceiveRequest else ChannelNothing
    case Disconnect => if code == CHANNEL_DISCONNECT then DisconnectState else ChannelNothing
    case ToClientSent => if code == CHANNEL_REPLY then PassReply else ChannelNothing
  }

  // ---------------------------------------------------------------- what it does

  /** A handler takes the low byte of the 16-bit length for the length. */
  function Copied(data: Bytes): Bytes {
    if |data| < 0x100 then data else data[..|data| % 0x100]
  }

  /** The bytes that strlen counts. */
  function Text(data: Bytes): (r: Bytes)
    ensures |r| <= |data|
  {
    if data == [] || data[0] == 0 then [] else [data[0]] + Text(data[1..])
  }

  function ToUser(s: Sys, code: uint16, data: Bytes): Sys {
    s.(userBox := s.userBox + [Msg(code, data)])
  }

  function ToClient(s: Sys, code: uint16, data: Bytes): Sys {
    s.(clientBox := s.clientBox + [Msg(code, data)])
  }

  function ToChannel(s: Sys, code: uint16, data: Bytes): Sys {
    s.(channelBox := s.channelBox + [Msg(code, data)])
  }

  function AllIdle(s: Sys): Sys {
    var t := ToUser(ToChannel(ToClient(s, CLIENT_IDLE, []), CHANNEL_IDLE, []), USER_DATA_INPUT, []);
    t.(user := t.user.(state := DataInput))
  }

  function UserRuns(s: Sys, proc: UserProc, msg: Msg, typed: Bytes): Sys {
    match proc
    case SetAllIdle => AllIdle(s)
    case ReadConsole => ToUser(s.(user := User(ToClientData, typed)), USER_DATA_SENT, [])
    case PassToClient => ToClient(s.(user := s.user.(state := ReturnData)), USER_DATA_SENT, Text(s.user.input))
    case GetFromClient => AllIdle(s.(user := s.user.(input := Copied(msg.data))))
    case UserNothing => s
  }

  function ClientRuns(s: Sys, proc: ClientProc, msg: Msg, found: Option<Bytes>): Sys {
    var c := s.client;
    match proc
    case IdleState => s.(client := c.(state := InputFromUser))
    case GetFromUser =>
      ToClient(s.(client := c.(state := CheckLocalTable, input := Copied(msg.data))), CHECK_LOCAL_TABLE, [])
    case CheckTable =>
      if found.Some? then ToClient(s.(client := c.(state := DnsRecived, output := found.value)), RETURN_DATA, [])
      else ToClient(s.(client := c.(state := DnsRequest)), DNS_REQUEST_SENT, [])
    case PassToChannel =>
      ToChannel(s.(client := c.(state := DnsRecived, timer := true)), DNS_REQUEST_SENT, Text(c.input))
    case GetFromChannel => ToClient(s.(client := c.(timer := false, output := Copied(msg.data))), RETURN_DATA, [])
    case PassToUser => ToUser(s.(client := c.(state := ClientIdle)), RETURN_DATA, Text(c.output))
    case TimerExpired => ToClient(s.(client := c.(state := DnsRequest)), DNS_REQUEST_SENT, [])
    case ClientNothing => s
  }

  /** The reply goes to the client and the channel disconnects. */
  function PassesReply(s: Sys, data: Bytes): Sys {
    var t := ToChannel(ToClient(s, CHANNEL_REPLY, data), CHANNEL_DISCONNECT, []);
    t.(channel := t.channel.(state := Disconnect))
  }

  function Disconnects(s: Sys): Sys {
    ToChannel(s.(channel := s.channel.(state := ChannelIdle)), CHANNEL_IDLE, [])
  }

  function ChannelRuns(s: Sys, proc: ChannelProc, msg: Msg): Sys {
    var c := s.channel;
    match proc
    case ChannelIdleState => s.(channel := c.(state := ChannelRequest, firstStartFlag := c.firstStartFlag + 1))
    case GetRequest =>
      var t := s.(channel := c.(input := Copied(msg.data)));
      if c.firstStartFlag == 1 then ToChannel(t.(channel := t.channel.(state := Connect)), CREATE_SOCKET, []) else t
    case DisconnectState => Disconnects(s)
    case PassReply => PassesReply(s, msg.data)
    case ConnectState | ConnectedState | ReceiveRequest | ChannelNothing => s
  }

  // ---------------------------------------------------------------- runs

  /** A mailbox can be dispatched when it is not empty; names, table lines and replies fit the buffers. */
  predicate Enabled(s: Sys, op: Op) {
    match op
    case UserTurn(typed) => s.userBox != [] && |typed| < 0x100
    case ClientTurn(found) => s.clientBox != [] && (found.Some? ==> |found.value| < 0x100)
    case ChannelTurn => s.channelBox != []
    case ServerReply(data) => |data| < 0x100
    case ServerDisconnect => true
  }

  function Step(s: Sys, op: Op): Sys
    requires Enabled(s, op)
  {
    match op
    case UserTurn(typed) =>
      UserRuns(s.(userBox := s.userBox[1..]), UserHandler(s.user.state, s.userBox[0].code), s.userBox[0], typed)
    case ClientTurn(found) =>
      ClientRuns(s.(clientBox := s.clientBox[1..]), ClientHandler(s.client.state, s.clientBox[0].code), s.clientBox[0],
                 found)
    case ChannelTurn =>
      ChannelRuns(s.(channelBox := s.channelBox[1..]), ChannelHandler(s.channel.state, s.channelBox[0].code),
                  s.channelBox[0])
    case ServerReply(data) => PassesReply(s, data)
    case ServerDisconnect => Disconnects(s)
  }

  /** After Initialize of the automata and Start of the user. */
  function Started(): Sys {
    Sys(User(UserIdle, []), Client(ClientIdle, [], [], false), Channel(ChannelIdle, [], 0),
        [Msg(USER_IDLE, [])], [], [])
  }

  predicate Possible(s: Sys, ops: seq<Op>)
    decreases |ops|
  {
    ops != [] ==> Enabled(s, ops[0]) && Possible(Step(s, ops[0]), ops[1..])
  }

  function Run(s: Sys, ops: seq<Op>): Sys
    requires Possible(s, ops)
    decreases |ops|
  {
    if ops == [] then s else Run(Step(s, ops[0]), ops[1..])
  }
}
