/** The three automata with their dispatch tables and mailboxes (POP3ClientCppUnit/UserAuto.cpp, ClAuto.cpp,
    ChAuto.cpp).  The objects of the source are the fields of one object here, named after their automaton. */
module DnsAutomata {
  import opened Options
  import opened FsmDispatch
  import opened DnsSpec
  import opened DnsSafety
  import opened DnsRuns

  function UserIndex(state: UserState): nat {
    match state
    case UserIdle => 0
    case DataInput => 1
    case ToClientData => 2
    case ReturnData => 3
  }

  function ClientIndex(state: ClientState): nat {
    match state
    case ClientIdle => 0
    case CheckLocalTable => 1
    case InputFromUser => 2
    case DnsRequest => 3
    case DnsRecived => 4
  }

  function ChannelIndex(state: ChannelState): nat {
    match state
    case ChannelIdle => 0
    case ChannelRequest => 1
    case Connect => 2
    case Connected => 3
    case Disconnect => 4
    case ToClientSent => 5
  }

  class DnsProgram {
    const userTable: Dispatcher<UserProc>
    const clientTable: Dispatcher<ClientProc>
    const channelTable: Dispatcher<ChannelProc>

    var userState: UserState
    var userInput: Bytes
    var clientState: ClientState
    var clientInput: Bytes
    var clientOutput: Bytes
    var clientTimer: bool
    var channelState: ChannelState
    var channelInput: Bytes
    var firstStartFlag: nat

    var userBox: seq<Msg>
    var clientBox: seq<Msg>
    var channelBox: seq<Msg>

    ghost function Now(): Sys
      reads this
    {
      Sys(User(userState, userInput), Client(clientState, clientInput, clientOutput, clientTimer),
          Channel(channelState, channelInput, firstStartFlag), userBox, clientBox, channelBox)
    }

    /** The tables that Initialize builds give each state its handlers. */
    ghost predicate Valid()
      reads userTable, clientTable, channelTable
    {
      && |userTable.states| == 4 && |clientTable.states| == 10 && |channelTable.states| == 6
      && (forall state :: userTable.states[UserIndex(state)].stateValid)
      && (forall state, code :: userTable.Bound(UserIndex(state), code) == UserHandler(state, code))
      && (forall state :: clientTable.states[ClientIndex(state)].stateValid)
      && (forall state, code :: clientTable.Bound(ClientIndex(state), code) == ClientHandler(state, code))
      && (forall state :: channelTable.states[ChannelIndex(state)].stateValid)
      && (forall state, code :: channelTable.Bound(ChannelIndex(state), code) == ChannelHandler(state, code))
    }

    /** The constructors and Initialize of the automata, and Start of the user. */
    constructor ()
      ensures Valid() && Now() == Started()
    {
      userState, clientState, channelState := UserIdle, ClientIdle, ChannelIdle;
      userInput, clientInput, clientOutput, channelInput := [], [], [], [];
      clientTimer, firstStartFlag := false, 0;
      userBox, clientBox, channelBox := [Msg(USER_IDLE, [])], [], [];
      userTable := new Dispatcher(4, 3, UserNothing);
      clientTable := new Dispatcher(10, 2, ClientNothing);
      channelTable := new Dispatcher(6, 3, ChannelNothing);
      new;
      InitializeUser();
      InitializeClient();
      InitializeChannel();
    }

    method InitializeUser()
      requires |userTable.states| == 4 && userTable.Valid() && userTable.doNothing == UserNothing
      requires userTable.maxNumOfProcPerState == 3
      requires forall s :: 0 <= s < |userTable.states| ==> userTable.states[s].branches == []
      requires forall s, e :: 0 <= s < |userTable.states| ==> userTable.Bound(s, e) == UserNothing
      modifies userTable
      ensures |userTable.states| == 4
      ensures forall state :: userTable.states[UserIndex(state)].stateValid
      ensures forall state, code :: userTable.Bound(UserIndex(state), code) == UserHandler(state, code)
    {
      hide Lookup;
      var ok0 := userTable.InitEventProc(0, USER_IDLE, SetAllIdle);
      var ok1 := userTable.InitEventProc(1, USER_DATA_INPUT, ReadConsole);
      var ok2 := userTable.InitEventProc(2, USER_DATA_SENT, PassToClient);
      var ok3 := userTable.InitEventProc(3, RETURN_DATA, GetFromClient);
      assert ok0 && ok1 && ok2 && ok3;
    }

    method InitializeClient()
      requires |clientTable.states| == 10 && clientTable.Valid() && clientTable.doNothing == ClientNothing
      requires clientTable.maxNumOfProcPerState == 2
      requires forall s :: 0 <= s < |clientTable.states| ==> clientTable.states[s].branches == []
      requires forall s, e :: 0 <= s < |clientTable.states| ==> clientTable.Bound(s, e) == ClientNothing
      modifies clientTable
      ensures |clientTable.states| == 10
      ensures forall state :: clientTable.states[ClientIndex(state)].stateValid
      ensures forall state, code :: clientTable.Bound(ClientIndex(state), code) == ClientHandler(state, code)
    {
      hide Lookup;
      var ok0 := clientTable.InitEventProc(0, CLIENT_IDLE, IdleState);
      var ok1 := clientTable.InitEventProc(2, USER_DATA_SENT, GetFromUser);
      var ok2 := clientTable.InitEventProc(1, CHECK_LOCAL_TABLE, CheckTable);
      var ok3 := clientTable.InitEventProc(3, DNS_REQUEST_SENT, PassToChannel);
      var ok4 := clientTable.InitEventProc(4, CHANNEL_REPLY, GetFromChannel);
      var ok5 := clientTable.InitEventProc(4, RETURN_DATA, PassToUser);
      var ok6 := clientTable.InitEventProc(3, TIMER_EXPIRED, TimerExpired);
      assert ok0 && ok1 && ok2 && ok3 && ok4 && ok5 && ok6;
    }

    method InitializeChannel()
      requires |channelTable.states| == 6 && channelTable.Valid() && channelTable.doNothing == ChannelNothing
      requires channelTable.maxNumOfProcPerState == 3
      requires forall s :: 0 <= s < |channelTable.states| ==> channelTable.states[s].branches == []
      requires forall s, e :: 0 <= s < |channelTable.states| ==> channelTable.Bound(s, e) == ChannelNothing
      modifies channelTable
      ensures |channelTable.states| == 6
      ensures forall state :: channelTable.states[ChannelIndex(state)].stateValid
      ensures forall state, code :: channelTable.Bound(ChannelIndex(state), code) == ChannelHandler(state, code)
    {
      hide Lookup;
      var ok0 := channelTable.InitEventProc(0, CHANNEL_IDLE, ChannelIdleState);
      var ok1 := channelTable.InitEventProc(1, DNS_REQUEST_SENT, GetRequest);
      var ok2 := channelTable.InitEventProc(2, CREATE_SOCKET, ConnectState);
      var ok3 := channelTable.InitEventProc(3, REQUEST_SEND, ConnectedState);
      var ok4 := channelTable.InitEventProc(3, REQUEST_RECIVE, ReceiveRequest);
      var ok5 := channelTable.InitEventProc(4, CHANNEL_DISCONNECT, DisconnectState);
      var ok6 := channelTable.InitEventProc(5, CHANNEL_REPLY, PassReply);
      assert ok0 && ok1 && ok2 && ok3 && ok4 && ok5 && ok6;
    }

    // -------------------------------------------------------------- UserAuto

    method UserIdleSetAll()
      modifies this
      ensures Now() == AllIdle(old(Now()))
    {
      clientBox := clientBox + [Msg(CLIENT_IDLE, [])];
      channelBox := channelBox + [Msg(CHANNEL_IDLE, [])];
      userBox := userBox + [Msg(USER_DATA_INPUT, [])];
      userState := DataInput;
    }

    method UserDataInputFromConsole(typed: Bytes)
      modifies this`userInput, this`userBox, this`userState
      ensures Now() == UserRuns(old(Now()), ReadConsole, Msg(0, []), typed)
    {
      userInput := typed;
      userBox := userBox + [Msg(USER_DATA_SENT, [])];
      userState := ToClientData;
    }

    method UserPassDataToClient()
      modifies this`clientBox, this`userState
      ensures Now() == UserRuns(old(Now()), PassToClient, Msg(0, []), [])
    {
      clientBox := clientBox + [Msg(USER_DATA_SENT, Text(userInput))];
      userState := ReturnData;
    }

    method UserGetDataFromClient(msg: Msg)
      modifies this
      ensures Now() == UserRuns(old(Now()), GetFromClient, msg, [])
    {
      userInput := Copied(msg.data);
      UserIdleSetAll();
    }

    /** Process of the user: the message at the head of its mailbox. */
    method DispatchUser(typed: Bytes)
      requires Valid() && Enabled(Now(), UserTurn(typed))
      modifies this
      ensures Now() == Step(old(Now()), UserTurn(typed))
    {
      var msg := userBox[0];
      userBox := userBox[1..];
      var proc := userTable.GetProcedure(UserIndex(userState), msg.code);
      match proc {
        case SetAllIdle => UserIdleSetAll();
        case ReadConsole => UserDataInputFromConsole(typed);
        case PassToClient => UserPassDataToClient();
        case GetFromClient => UserGetDataFromClient(msg);
        case UserNothing =>
      }
    }

    // -------------------------------------------------------------- ClAuto

    method ClientGetDataFromUser(msg: Msg)
      modifies this`clientInput, this`clientBox, this`clientState
      ensures Now() == ClientRuns(old(Now()), GetFromUser, msg, None)
    {
      clientInput := Copied(msg.data);
      clientBox := clientBox + [Msg(CHECK_LOCAL_TABLE, [])];
      clientState := CheckLocalTable;
    }

    /** The line behind the one that matched, if any, is a parameter. */
    method ClientCheckInLocalTable(found: Option<Bytes>)
      modifies this`clientOutput, this`clientBox, this`clientState
      ensures Now() == ClientRuns(old(Now()), CheckTable, Msg(0, []), found)
    {
      if found.Some? {
        clientOutput := found.value;
        clientBox := clientBox + [Msg(RETURN_DATA, [])];
        clientState := DnsRecived;
      } else {
        clientBox := clientBox + [Msg(DNS_REQUEST_SENT, [])];
        clientState := DnsRequest;
      }
    }

    /** StartTimer asserts that the timer is not running. */
    method ClientPassDnsRequestToChannel()
      requires !clientTimer
      modifies this`channelBox, this`clientTimer, this`clientState
      ensures Now() == ClientRuns(old(Now()), PassToChannel, Msg(0, []), None)
    {
      channelBox := channelBox + [Msg(DNS_REQUEST_SENT, Text(clientInput))];
      clientTimer := true;
      clientState := DnsRecived;
    }

    method ClientGetDnsRequestFromChannel(msg: Msg)
      modifies this`clientTimer, this`clientOutput, this`clientBox
      ensures Now() == ClientRuns(old(Now()), GetFromChannel, msg, None)
    {
      clientTimer := false;
      clientOutput := Copied(msg.data);
      clientBox := clientBox + [Msg(RETURN_DATA, [])];
    }

    method ClientPassDnsRequestToClient()
      modifies this`userBox, this`clientState
      ensures Now() == ClientRuns(old(Now()), PassToUser, Msg(0, []), None)
    {
      userBox := userBox + [Msg(RETURN_DATA, Text(clientOutput))];
      clientState := ClientIdle;
    }

    method ClientTimerExpired()
      modifies this`clientBox, this`clientState
      ensures Now() == ClientRuns(old(Now()), TimerExpired, Msg(0, []), None)
    {
      clientBox := clientBox + [Msg(DNS_REQUEST_SENT, [])];
      clientState := DnsRequest;
    }

    /** Process of the client, in any reachable state. */
    method DispatchClient(found: Option<Bytes>)
      requires Valid() && Enabled(Now(), ClientTurn(found)) && Inv(Now())
      modifies this
      ensures Now() == Step(old(Now()), ClientTurn(found)) && Inv(Now())
    {
      ClientTurnKeepsInv(Now(), found);
      if ClientHandler(clientState, clientBox[0].code) == PassToChannel {
        RequestToChannel(Now(), found);
      }
      hide Inv;
      var msg := clientBox[0];
      clientBox := clientBox[1..];
      var proc := clientTable.GetProcedure(ClientIndex(clientState), msg.code);
      match proc {
        case IdleState => clientState := InputFromUser;
        case GetFromUser => ClientGetDataFromUser(msg);
        case CheckTable => ClientCheckInLocalTable(found);
        case PassToChannel => ClientPassDnsRequestToChannel();
        case GetFromChannel => ClientGetDnsRequestFromChannel(msg);
        case PassToUser => ClientPassDnsRequestToClient();
        case TimerExpired => ClientTimerExpired();
        case ClientNothing =>
      }
    }

    // -------------------------------------------------------------- ChAuto

    method ChannelGetDnsRequest(msg: Msg)
      modifies this`channelInput, this`channelBox, this`channelState
      ensures Now() == ChannelRuns(old(Now()), GetRequest, msg)
    {
      channelInput := Copied(msg.data);
      if firstStartFlag == 1 {
        channelBox := channelBox + [Msg(CREATE_SOCKET, [])];
        channelState := Connect;
      }
    }

    /** Also called by the listener thread, when the server closes the connection. */
    method ChannelDisconnectState()
      modifies this`channelBox, this`channelState
      ensures Now() == Disconnects(old(Now())) && Now() == Step(old(Now()), ServerDisconnect)
    {
      channelBox := channelBox + [Msg(CHANNEL_IDLE, [])];
      channelState := ChannelIdle;
    }

    /** Called by the listener thread, for everything that it receives. */
    method ChannelToClientDnsRequestPass(data: Bytes)
      modifies this`clientBox, this`channelBox, this`channelState
      ensures Now() == PassesReply(old(Now()), data)
      ensures |data| < 0x100 ==> Now() == Step(old(Now()), ServerReply(data))
    {
      clientBox := clientBox + [Msg(CHANNEL_REPLY, data)];
      channelBox := channelBox + [Msg(CHANNEL_DISCONNECT, [])];
      channelState := Disconnect;
    }

    /** Process of the channel. */
    method DispatchChannel()
      requires Valid() && Enabled(Now(), ChannelTurn)
      modifies this
      ensures Now() == Step(old(Now()), ChannelTurn)
    {
      var msg := channelBox[0];
      channelBox := channelBox[1..];
      var proc := channelTable.GetProcedure(ChannelIndex(channelState), msg.code);
      match proc {
        case ChannelIdleState =>
          channelState := ChannelRequest;
          firstStartFlag := firstStartFlag + 1;
        case GetRequest => ChannelGetDnsRequest(msg);
        case DisconnectState => ChannelDisconnectState();
        case PassReply => ChannelToClientDnsRequestPass(msg.data);
        case ConnectState | ConnectedState | ReceiveRequest | ChannelNothing =>
      }
    }
  }
}
