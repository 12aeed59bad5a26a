/** What the lease server does, record by record. The program in DhcpDaemon.dfy is proved to
    compute these functions. */
module DhcpServer {
  import opened DhcpMessages
  import opened Seqs

  datatype State = Init | WaitReq1 | WaitReq2 | InUse

  datatype Event =
    | Discover
    | RequestAllocOk | RequestAllocNg
    | RequestExtOk | RequestExtNg
    | ReleaseOk | ReleaseNg
    | ReqTimeout | TtlTimeout
    | UnknownMsg
    | NoEvent

  datatype Action =
    | SendOfferOk | ResendOffer | SendAckOk | SendAckNg | ResetTtl | ReleaseClient
    | NullHandler | NoAction

  /** The server's record of one client. */
  datatype Record = Record(id: Endpoint, stat: State, tout: int, ttl: int, ttlcounter: nat, addr: Node)

  /** The client that the main loop's pointer was last set to. It is `Wild` before the first message
      and after a client could not be created: uninitialised, or null. */
  datatype Pointer = Wild | ListHead | ClientOf(e: Endpoint)

  datatype Server = Server(ttlMax: nat, pool: seq<Node>, clients: seq<Record>, cur: Pointer)

  /** The transition table. */
  function Table(stat: State, event: Event): Action {
    match (stat, event)
    case (Init, Discover) => SendOfferOk
    case (WaitReq1, RequestAllocOk) => SendAckOk
    case (WaitReq1, RequestAllocNg) => SendAckNg
    case (WaitReq1, ReqTimeout) => ResendOffer
    case (WaitReq1, UnknownMsg) => ReleaseClient
    case (InUse, RequestExtOk) => ResetTtl
    case (InUse, ReleaseOk) => ReleaseClient
    case (InUse, TtlTimeout) => ReleaseClient
    case (InUse, ReleaseNg) => NullHandler
    case (InUse, RequestExtNg) => SendAckNg
    case (InUse, UnknownMsg) => ReleaseClient
    case (WaitReq2, RequestAllocOk) => SendAckOk
    case (WaitReq2, RequestAllocNg) => SendAckNg
    case (WaitReq2, UnknownMsg) => ReleaseClient
    case (WaitReq2, ReqTimeout) => ReleaseClient
    case (_, _) => NoAction
  }

  /** How a message from a known client is classified. */
  function EventOf(ttlMax: nat, r: Record, msg: Msg): Event {
    if msg.kind == TYPE_DISCOVER then
      if msg.code == 0 && msg.ttl == 0 && msg.ip == 0 && msg.mask == 0 then Discover else UnknownMsg
    else if msg.kind == TYPE_REQUEST then
      var ok := msg.ttl <= ttlMax && msg.ip == r.addr.ip && msg.mask == r.addr.mask;
      if msg.code == CODE_REQ_ALLOC then (if ok then RequestAllocOk else RequestAllocNg)
      else if msg.code == CODE_REQ_EXT then (if ok then RequestExtOk else RequestExtNg)
      else UnknownMsg
    else if msg.kind == TYPE_RELEASE then
      if msg.code == 0 && msg.ttl == 0 && msg.mask == 0 && msg.ip == r.addr.ip then ReleaseOk else ReleaseNg
    else NoEvent
  }

  predicate IsLeaseRequest(msg: Msg) {
    msg.kind == TYPE_REQUEST && (msg.code == CODE_REQ_ALLOC || msg.code == CODE_REQ_EXT)
  }

  /** Classifying a request stores its lifetime in the record, whether or not it is accepted. */
  function Noted(r: Record, msg: Msg): Record {
    if IsLeaseRequest(msg) then r.(ttlcounter := msg.ttl) else r
  }

  /** The outcome for one record: kept, dropped with its address returned to the pool, or no
      defined outcome because a null handler is called. */
  datatype Outcome = Keep(r: Record, sent: seq<Msg>) | Drop(sent: seq<Msg>) | Undefined

  function Granted(r: Record): Outcome {
    Keep(r.(stat := InUse, tout := MESSAGE_TIMEOUT, ttl := r.ttlcounter), [AckOk(r.ttlcounter, r.addr)])
  }

  function Act(ttlMax: nat, r: Record, action: Action): Outcome {
    match action
    case NoAction => Keep(r, [])
    case SendOfferOk => Keep(r.(stat := WaitReq1, tout := MESSAGE_TIMEOUT), [OfferOk(ttlMax, r.addr)])
    case ResendOffer => Keep(r.(stat := WaitReq2, tout := MESSAGE_TIMEOUT), [OfferOk(ttlMax, r.addr)])
    case SendAckOk => Granted(r)
    case ResetTtl => Granted(r)
    case SendAckNg => Drop([AckNg()])
    case ReleaseClient => Drop([])
    case NullHandler => Undefined
  }

  function Respond(ttlMax: nat, r: Record, msg: Msg): Outcome {
    Act(ttlMax, Noted(r, msg), Table(r.stat, EventOf(ttlMax, r, msg)))
  }

  // ---------------------------------------------------------------- the client list

  function IndexOf(cs: seq<Record>, e: Endpoint): (i: nat)
    ensures i <= |cs|
    ensures i < |cs| ==> cs[i].id == e
    ensures forall j :: 0 <= j < i ==> cs[j].id != e
  {
    if cs == [] || cs[0].id == e then 0 else 1 + IndexOf(cs[1..], e)
  }

  predicate Known(cs: seq<Record>, e: Endpoint) {
    IndexOf(cs, e) < |cs|
  }

  function ToPeer(e: Endpoint, msgs: seq<Msg>): seq<Packet> {
    if msgs == [] then [] else [Packet(e, msgs[0])] + ToPeer(e, msgs[1..])
  }

  datatype Result = Next(s: Server, sent: seq<Packet>) | Crash

  /** Carries out the outcome for the record at index `i`. */
  function Apply(s: Server, i: nat, o: Outcome): Result
    requires i < |s.clients|
  {
    var r := s.clients[i];
    match o
    case Keep(r', sent) => Next(s.(clients := s.clients[i := r']), ToPeer(r.id, sent))
    case Drop(sent) => Next(s.(pool := s.pool + [r.addr], clients := Cut(s.clients, i)), ToPeer(r.id, sent))
    case Undefined => Crash
  }

  /** A new client takes the first pool address and goes to the front of the list. */
  function Create(s: Server, e: Endpoint): Server
    requires s.pool != []
  {
    s.(pool := s.pool[1..], clients := [Record(e, Init, MESSAGE_TIMEOUT, 0, 0, s.pool[0])] + s.clients)
  }

  /** Where the search for the sender, and creating it, leave the pointer. */
  function Reached(s: Server, e: Endpoint, msg: Msg): Pointer {
    if Known(s.clients, e) then ClientOf(e)
    else if msg.kind != TYPE_DISCOVER then ListHead
    else if s.pool == [] then Wild
    else ClientOf(e)
  }

  /** The handling of one well-sized message. */
  function Receive(s: Server, e: Endpoint, msg: Msg): Result {
    if Unnamed(msg) then Crash else Dispatch(s.(cur := Reached(s, e, msg)), e, msg)
  }

  /** From an endpoint without a record, anything but a DISCOVER either is ignored or dereferences
      the null address of the list head. */
  function Dispatch(s: Server, e: Endpoint, msg: Msg): Result {
    var i := IndexOf(s.clients, e);
    if i < |s.clients| then Apply(s, i, Respond(s.ttlMax, s.clients[i], msg))
    else if msg.kind == TYPE_DISCOVER then
      if s.pool == [] then Next(s, [Packet(e, OfferNg())])
      else
        var s' := Create(s, e);
        Apply(s', 0, Respond(s.ttlMax, s'.clients[0], msg))
    else if IsLeaseRequest(msg) || msg.kind == TYPE_RELEASE then Crash
    else Next(s, [])
  }

  /** A message the code has no defined outcome for: one whose type or code has no name; a request
      or release from an endpoint without a record, which reads the null address of the list head;
      or a wrong release of a lease in use, whose handler is null. */
  predicate Fatal(cs: seq<Record>, e: Endpoint, msg: Msg) {
    var i := IndexOf(cs, e);
    || Unnamed(msg)
    || (if i == |cs| then IsLeaseRequest(msg) || msg.kind == TYPE_RELEASE
        else
          && cs[i].stat == InUse && msg.kind == TYPE_RELEASE
          && !(msg.code == 0 && msg.ttl == 0 && msg.mask == 0 && msg.ip == cs[i].addr.ip))
  }

  /** The handling of a datagram of the wrong length, whoever sent it: the pointer still stands
      where the last message left it, and what it points at may be gone. The list head is in no
      state of the table. */
  function Stray(s: Server): Result {
    match s.cur
    case Wild => Crash
    case ListHead => Next(s, [])
    case ClientOf(e) =>
      var i := IndexOf(s.clients, e);
      if i < |s.clients| then Apply(s, i, Act(s.ttlMax, s.clients[i], Table(s.clients[i].stat, UnknownMsg)))
      else Crash
  }

  /** The pointer cannot be followed: it was never set, is null, or its client is gone. */
  predicate Dangling(s: Server) {
    s.cur.Wild? || (s.cur.ClientOf? && !Known(s.clients, s.cur.e))
  }

  // ---------------------------------------------------------------- timers

  function CountDown(r: Record): Record {
    match r.stat
    case InUse => r.(ttl := r.ttl - 1)
    case WaitReq1 => r.(tout := r.tout - 1)
    case WaitReq2 => r.(tout := r.tout - 1)
    case Init => r
  }

  function CountDownAll(cs: seq<Record>): (cs': seq<Record>)
    ensures |cs'| == |cs| && forall i :: 0 <= i < |cs| ==> cs'[i] == CountDown(cs[i])
  {
    seq(|cs|, i requires 0 <= i < |cs| => CountDown(cs[i]))
  }

  /** The two timeout sweeps. Each asks the transition table about every record whose counter has
      run out. */
  datatype Sweep = TtlSweep | ToutSweep

  function SweepOutcome(ttlMax: nat, sweep: Sweep, r: Record): Outcome {
    match sweep
    case TtlSweep => if r.ttl <= 0 then Act(ttlMax, r, Table(r.stat, TtlTimeout)) else Keep(r, [])
    case ToutSweep => if r.tout <= 0 then Act(ttlMax, r, Table(r.stat, ReqTimeout)) else Keep(r, [])
  }

  /** A record and what is to happen to it. */
  datatype Verdict = Verdict(r: Record, o: Outcome)

  function Verdicts(ttlMax: nat, sweep: Sweep, cs: seq<Record>): (vs: seq<Verdict>)
    ensures |vs| == |cs|
    ensures forall i :: 0 <= i < |cs| ==> vs[i] == Verdict(cs[i], SweepOutcome(ttlMax, sweep, cs[i]))
  {
    seq(|cs|, i requires 0 <= i < |cs| => Verdict(cs[i], SweepOutcome(ttlMax, sweep, cs[i])))
  }

  /** The records that survive, in list order. */
  function Kept(vs: seq<Verdict>): seq<Record> {
    FlatMap(KeptOf, vs)
  }

  /** The addresses returned, in list order. */
  function Freed(vs: seq<Verdict>): seq<Node> {
    FlatMap(FreedOf, vs)
  }

  /** The messages sent, in list order. */
  function Sent(vs: seq<Verdict>): seq<Packet> {
    FlatMap(SentOf, vs)
  }

  function KeptOf(v: Verdict): seq<Record> {
    if v.o.Keep? then [v.o.r] else []
  }

  function FreedOf(v: Verdict): seq<Node> {
    if v.o.Drop? then [v.r.addr] else []
  }

  function SentOf(v: Verdict): seq<Packet> {
    if v.o.Undefined? then [] else ToPeer(v.r.id, v.o.sent)
  }

  function Swept(s: Server, sweep: Sweep): Server {
    var vs := Verdicts(s.ttlMax, sweep, s.clients);
    s.(pool := s.pool + Freed(vs), clients := Kept(vs))
  }

  function SweepSent(ttlMax: nat, sweep: Sweep, cs: seq<Record>): seq<Packet> {
    Sent(Verdicts(ttlMax, sweep, cs))
  }

  /** The branch taken when no message arrived. */
  function Idle(s: Server): Server {
    Swept(Swept(s, TtlSweep), ToutSweep)
  }

  function IdleSent(s: Server): seq<Packet> {
    SweepSent(s.ttlMax, TtlSweep, s.clients) + SweepSent(s.ttlMax, ToutSweep, Swept(s, TtlSweep).clients)
  }

  /** What one turn of the main loop finds: nothing, a datagram of the length of a message, or one
      of any other length. */
  datatype Input = Nothing | Datagram(from: Endpoint, msg: Msg) | WrongLength

  function Turn(s: Server, alarm: bool, input: Input): Result {
    var s' := if alarm then s.(clients := CountDownAll(s.clients)) else s;
    match input
    case Nothing => Next(Idle(s'), IdleSent(s'))
    case Datagram(from, msg) => Receive(s', from, msg)
    case WrongLength => Stray(s')
  }

  function Addrs(cs: seq<Record>): (a: seq<Node>)
    ensures |a| == |cs| && forall i :: 0 <= i < |cs| ==> a[i] == cs[i].addr
  {
    seq(|cs|, i requires 0 <= i < |cs| => cs[i].addr)
  }

  /** The shutdown loop releases every record, front to back. */
  function Shutdown(s: Server): Server {
    s.(pool := s.pool + Addrs(s.clients), clients := [])
  }
}
