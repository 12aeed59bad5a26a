/** The lease client: a table-driven state machine, as functions and as the program that updates
    its globals in place. */
module DhcpClient {
  import opened DhcpMessages

  datatype State = WaitOffer1 | WaitOffer2 | WaitAck1 | WaitAck2 | InUse | WaitExtAck | Terminated

  datatype Event =
    | GotOffer | OfferRefused | GotAck | AckRefused
    | HalfTtl | Sighup | Timeout | TtlTimeout
    | UnknownMsg
    | NoEvent

  datatype Action =
    | SendRequestAlloc | ResendRequestAlloc | SendRequestExt | SendRelease
    | ResendDiscover | StartUsing | Terminate | NoAction

  datatype Client = Client(stat: State, ttl: int, tout: int, ttlcounter: nat, addr: Node, stop: bool)

  /** The transition table. */
  function Table(stat: State, event: Event): Action {
    match (stat, event)
    case (WaitOffer1, GotOffer) => SendRequestAlloc
    case (WaitOffer1, OfferRefused) => Terminate
    case (WaitOffer1, Timeout) => ResendDiscover
    case (WaitOffer1, UnknownMsg) => Terminate
    case (WaitOffer2, GotOffer) => SendRequestAlloc
    case (WaitOffer2, OfferRefused) => Terminate
    case (WaitOffer2, Timeout) => Terminate
    case (WaitOffer2, UnknownMsg) => Terminate
    case (WaitAck1, GotAck) => StartUsing
    case (WaitAck1, AckRefused) => Terminate
    case (WaitAck1, Timeout) => ResendRequestAlloc
    case (WaitAck1, UnknownMsg) => Terminate
    case (WaitAck2, GotAck) => StartUsing
    case (WaitAck2, AckRefused) => Terminate
    case (WaitAck2, Timeout) => Terminate
    case (WaitAck2, UnknownMsg) => Terminate
    case (InUse, HalfTtl) => SendRequestExt
    case (InUse, Sighup) => SendRelease
    case (InUse, TtlTimeout) => Terminate
    case (WaitExtAck, GotAck) => StartUsing
    case (WaitExtAck, Sighup) => SendRelease
    case (WaitExtAck, TtlTimeout) => Terminate
    case (WaitExtAck, AckRefused) => Terminate
    case (WaitExtAck, UnknownMsg) => Terminate
    case (_, _) => NoAction
  }

  predicate GrantsOffer(msg: Msg) {
    msg.kind == TYPE_OFFER && msg.code != CODE_ERR_NOIP
  }

  predicate GrantsAck(msg: Msg) {
    msg.kind == TYPE_ACK && msg.code != CODE_ERR_REQ
  }

  function EventOf(msg: Msg): Event {
    if msg.kind == TYPE_OFFER then (if msg.code == CODE_ERR_NOIP then OfferRefused else GotOffer)
    else if msg.kind == TYPE_ACK then (if msg.code == CODE_ERR_REQ then AckRefused else GotAck)
    else NoEvent
  }

  /** What reading a message stores, in whatever state it arrives: any grant overwrites the
      lifetime and the address, and a refused offer stops the client. */
  function Noted(c: Client, msg: Msg): Client {
    if GrantsOffer(msg) || GrantsAck(msg) then c.(ttlcounter := msg.ttl, addr := Node(msg.ip, msg.mask))
    else if msg.kind == TYPE_OFFER then c.(stop := true)
    else c
  }

  function Enter(c: Client, stat: State): Client {
    c.(stat := stat, tout := MESSAGE_TIMEOUT, stop := c.stop || stat == Terminated)
  }

  function Act(c: Client, action: Action): (Client, seq<Msg>) {
    match action
    case NoAction => (c, [])
    case SendRequestAlloc => (Enter(c, WaitAck1), [RequestMsg(CODE_REQ_ALLOC, c.ttlcounter, c.addr)])
    case ResendRequestAlloc => (Enter(c, WaitAck2), [RequestMsg(CODE_REQ_ALLOC, c.ttlcounter, c.addr)])
    case SendRequestExt => (Enter(c, WaitExtAck), [RequestMsg(CODE_REQ_EXT, c.ttlcounter, c.addr)])
    case SendRelease => (Enter(c, Terminated), [ReleaseMsg(c.addr)])
    case ResendDiscover => (Enter(c, WaitOffer2), [DiscoverMsg()])
    case StartUsing => (Enter(c.(ttl := c.ttlcounter), InUse), [])
    case Terminate => (Enter(c, Terminated), [])
  }

  function CountDown(c: Client): Client {
    match c.stat
    case InUse => c.(ttl := c.ttl - 1)
    case WaitExtAck => c.(ttl := c.ttl - 1)
    case Terminated => c
    case _ => c.(tout := c.tout - 1)
  }

  /** The event of the idle branch: half the lifetime gone, a wait timed out, or a lease over. */
  function IdleEvent(c: Client): Event {
    if c.ttl <= c.ttlcounter / 2 && 0 < c.ttl then HalfTtl
    else if c.tout <= 0 then Timeout
    else if c.ttl <= 0 then TtlTimeout
    else NoEvent
  }

  /** What one turn of the main loop finds. */
  datatype Input = Message(msg: Msg) | WrongLength | Hangup | Interrupt | Nothing

  /** One turn, on a message that has a name. */
  function Turn(c: Client, alarm: bool, input: Input): (Client, seq<Msg>) {
    var c := if alarm then CountDown(c) else c;
    match input
    case Message(msg) => Act(Noted(c, msg), Table(c.stat, EventOf(msg)))
    case WrongLength => Act(c, Table(c.stat, UnknownMsg))
    case Hangup => Act(c, Table(c.stat, Sighup))
    case Interrupt => (c.(stop := true), [])
    case Nothing => Act(c, Table(c.stat, IdleEvent(c)))
  }

  /** The state in which the main loop is entered, a DISCOVER having been sent. */
  function Begin(): Client {
    Client(WaitOffer1, 0, MESSAGE_TIMEOUT, 0, Node(0, 0), false)
  }

  // ---------------------------------------------------------------- the program

  class Program {
    var stat: State
    var ttl: int
    var tout: int
    var ttlcounter: nat
    var addr: Node
    var stopFlag: bool
    var sent: seq<Msg>

    constructor ()
      ensures View() == Begin() && sent == [DiscoverMsg()]
    {
      ttl, tout, ttlcounter, addr, stopFlag, sent := 0, MESSAGE_TIMEOUT, 0, Node(0, 0), false, [];
      stat := WaitOffer1;
      new;
      SendDhcp(DiscoverMsg());
      ChangeState(WaitOffer1);
    }

    ghost function View(): Client
      reads this
    {
      Client(stat, ttl, tout, ttlcounter, addr, stopFlag)
    }

    method SendDhcp(msg: Msg)
      modifies this`sent
      ensures sent == old(sent) + [msg]
    {
      sent := sent + [msg];
    }

    method ChangeState(to: State)
      modifies this
      ensures View() == Enter(old(View()), to) && sent == old(sent)
    {
      stat := to;
      tout := MESSAGE_TIMEOUT;
      if to == Terminated { stopFlag := true; }
    }

    method FsmFunc(event: Event)
      modifies this
      ensures View() == Act(old(View()), Table(old(stat), event)).0
      ensures sent == old(sent) + Act(old(View()), Table(old(stat), event)).1
    {
      match Table(stat, event)
      case NoAction =>
      case SendRequestAlloc =>
        SendDhcp(RequestMsg(CODE_REQ_ALLOC, ttlcounter, addr));
        ChangeState(WaitAck1);
      case ResendRequestAlloc =>
        SendDhcp(RequestMsg(CODE_REQ_ALLOC, ttlcounter, addr));
        ChangeState(WaitAck2);
      case SendRequestExt =>
        SendDhcp(RequestMsg(CODE_REQ_EXT, ttlcounter, addr));
        ChangeState(WaitExtAck);
      case SendRelease =>
        SendDhcp(ReleaseMsg(addr));
        ChangeState(Terminated);
      case ResendDiscover =>
        SendDhcp(DiscoverMsg());
        ChangeState(WaitOffer2);
      case StartUsing =>
        ttl := ttlcounter;
        ChangeState(InUse);
      case Terminate =>
        ChangeState(Terminated);
    }

    method GetEvent(msg: Msg) returns (event: Event)
      modifies this
      ensures event == EventOf(msg) && View() == Noted(old(View()), msg) && sent == old(sent)
    {
      if msg.kind == TYPE_OFFER {
        if msg.code == CODE_ERR_NOIP {
          stopFlag := true;
          return OfferRefused;
        }
        ttlcounter, addr := msg.ttl, Node(msg.ip, msg.mask);
        return GotOffer;
      } else if msg.kind == TYPE_ACK {
        if msg.code == CODE_ERR_REQ { return AckRefused; }
        ttlcounter, addr := msg.ttl, Node(msg.ip, msg.mask);
        return GotAck;
      }
      return NoEvent;
    }

    method Decrement()
      modifies this`ttl, this`tout
      ensures View() == CountDown(old(View()))
    {
      if stat == InUse || stat == WaitExtAck {
        ttl := ttl - 1;
      } else if stat != Terminated {
        tout := tout - 1;
      }
    }

    /** What the turn's input amounts to. */
    method NextEvent(input: Input) returns (event: Event)
      modifies this
      ensures sent == old(sent)
      ensures Act(View(), Table(old(stat), event)) == Turn(old(View()), false, input) && stat == old(stat)
    {
      match input
      case Message(msg) => event := GetEvent(msg);
      case WrongLength => event := UnknownMsg;
      case Hangup => event := Sighup;
      case Interrupt =>
        stopFlag := true;
        event := NoEvent;
      case Nothing =>
        if ttl <= ttlcounter / 2 && 0 < ttl {
          event := HalfTtl;
        } else if tout <= 0 {
          event := Timeout;
        } else if ttl <= 0 {
          event := TtlTimeout;
        } else {
          event := NoEvent;
        }
    }

    /** One turn of the main loop. */
    method Iterate(alarm: bool, input: Input) returns (crashed: bool)
      modifies this
      ensures crashed <==> input.Message? && Unnamed(input.msg)
      ensures !crashed ==> View() == Turn(old(View()), alarm, input).0
      ensures !crashed ==> sent == old(sent) + Turn(old(View()), alarm, input).1
    {
      crashed := input.Message? && Unnamed(input.msg);
      if crashed { return; }
      if alarm { Decrement(); }
      var event := NextEvent(input);
      FsmFunc(event);
    }
  }
}
