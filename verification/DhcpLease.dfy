/** One lease server and any number of clients that run the client program, as one system.

    Between two ticks the network may lose, reorder and repeat messages; a tick is one step in
    which every message still in flight is lost and every node counts down and runs its idle
    branch. A client endpoint runs the program once. A message the server has no defined outcome
    for stops the server for good, while the clients go on. */
module DhcpLease {
  import opened DhcpMessages
  import Seqs
  import S = DhcpServer
  import R = DhcpServerRuns
  import C = DhcpClient
  import T = DhcpClientTurns

  datatype Sys = Sys(server: S.Server, up: bool, clients: map<Endpoint, C.Client>,
                     toServer: set<Packet>, toClient: set<Packet>)

  datatype Step =
    | Begin(e: Endpoint)
    | ServerTakes(p: Packet)
    | ClientTakes(p: Packet)
    | Signal(e: Endpoint, hangup: bool)
    | Tick

  ghost predicate Live(sys: Sys, e: Endpoint) {
    e in sys.clients && !sys.clients[e].stop
  }

  ghost predicate Enabled(sys: Sys, step: Step) {
    match step
    case Begin(e) => e !in sys.clients
    case ServerTakes(p) => sys.up && p in sys.toServer
    case ClientTakes(p) => p in sys.toClient && Live(sys, p.peer)
    case Signal(e, _) => Live(sys, e)
    case Tick => true
  }

  /** The packets by which endpoint `e` sends the given messages. */
  ghost function FromPeer(e: Endpoint, msgs: seq<Msg>): set<Packet> {
    set i | 0 <= i < |msgs| :: Packet(e, msgs[i])
  }

  lemma FromPeerOne(e: Endpoint, msg: Msg)
    ensures FromPeer(e, [msg]) == {Packet(e, msg)}
  {
    assert Packet(e, [msg][0]) in FromPeer(e, [msg]);
  }

  ghost function ClientTurn(sys: Sys, e: Endpoint, input: C.Input): Sys
    requires e in sys.clients
  {
    var (c, sent) := C.Turn(sys.clients[e], false, input);
    sys.(clients := sys.clients[e := c], toServer := sys.toServer + FromPeer(e, sent))
  }

  ghost function TickAll(sys: Sys): Sys {
    var turn := if sys.up then S.Turn(sys.server, true, S.Nothing) else S.Next(sys.server, []);
    Sys(turn.s, sys.up,
        map e | e in sys.clients :: T.Tick(sys.clients[e]).0,
        set e, i | e in sys.clients && 0 <= i < |T.Tick(sys.clients[e]).1| ::
          Packet(e, T.Tick(sys.clients[e]).1[i]),
        set i | 0 <= i < |turn.sent| :: turn.sent[i])
  }

  ghost function Next(sys: Sys, step: Step): Sys
    requires Enabled(sys, step)
  {
    match step
    case Begin(e) =>
      sys.(clients := sys.clients[e := C.Begin()], toServer := sys.toServer + {Packet(e, DiscoverMsg())})
    case ServerTakes(p) =>
      match S.Turn(sys.server, false, S.Datagram(p.peer, p.msg)) {
        case Crash => sys.(up := false)
        case Next(s, sent) => sys.(server := s, toClient := sys.toClient + set i | 0 <= i < |sent| :: sent[i])
      }
    case ClientTakes(p) => ClientTurn(sys, p.peer, C.Message(p.msg))
    case Signal(e, hangup) => ClientTurn(sys, e, if hangup then C.Hangup else C.Interrupt)
    case Tick => TickAll(sys)
  }

  ghost function Start(ttlMax: nat, config: seq<Node>): Sys {
    Sys(R.Start(ttlMax, config), true, map[], {}, {})
  }

  /** `steps` is a run of the system from its initial state. */
  ghost predicate IsRun(sys: Sys, steps: seq<Step>)
    decreases |steps|, 0
  {
    steps == [] || (IsRun(sys, steps[..|steps| - 1]) && Enabled(After(sys, steps[..|steps| - 1]), steps[|steps| - 1]))
  }

  ghost function After(sys: Sys, steps: seq<Step>): Sys
    requires IsRun(sys, steps)
    decreases |steps|, 1
  {
    if steps == [] then sys else Next(After(sys, steps[..|steps| - 1]), steps[|steps| - 1])
  }

  // ---------------------------------------------------------------- server records by client

  datatype Found = NoRecord | Has(r: S.Record)

  ghost function RecordOf(cs: seq<S.Record>, e: Endpoint): Found {
    var i := S.IndexOf(cs, e);
    if i < |cs| then Has(cs[i]) else NoRecord
  }

  lemma RecordOfAt(cs: seq<S.Record>, i: nat)
    requires R.DistinctIds(cs) && i < |cs|
    ensures S.IndexOf(cs, cs[i].id) == i && RecordOf(cs, cs[i].id) == Has(cs[i])
  {
  }

  lemma OutcomeRecords(s: S.Server, i: nat, o: S.Outcome, e: Endpoint)
    requires R.DistinctIds(s.clients) && i < |s.clients| && R.Faithful(s.ttlMax, s.clients[i], o) && !o.Undefined?
    ensures var s' := S.Apply(s, i, o).s;
            RecordOf(s'.clients, e) ==
              if e != s.clients[i].id then RecordOf(s.clients, e) else if o.Keep? then Has(o.r) else NoRecord
  {
    if o.Keep? {
      R.KeptIndex(s.clients, i, o.r, e);
    } else {
      R.CutIndex(s.clients, i, e);
    }
  }

  /** The record of `e`'s sender after a message, and what is sent. */
  ghost function Answer(s: S.Server, e: Endpoint, msg: Msg): S.Outcome {
    var found := RecordOf(s.clients, e);
    if found.Has? then S.Respond(s.ttlMax, found.r, msg)
    else if msg.kind != TYPE_DISCOVER then S.Drop([])
    else if s.pool == [] then S.Drop([OfferNg()])
    else S.Respond(s.ttlMax, S.Record(e, S.Init, MESSAGE_TIMEOUT, 0, 0, s.pool[0]), msg)
  }

  ghost function FoundAfter(o: S.Outcome): Found {
    if o.Keep? then Has(o.r) else NoRecord
  }

  lemma CreateRecords(s: S.Server, e: Endpoint, e': Endpoint)
    requires R.DistinctIds(s.clients) && s.pool != [] && RecordOf(s.clients, e).NoRecord?
    ensures R.DistinctIds(S.Create(s, e).clients)
    ensures RecordOf(S.Create(s, e).clients, e') ==
              if e' == e then Has(S.Create(s, e).clients[0]) else RecordOf(s.clients, e')
  {
  }

  lemma ReceiveRecords(s: S.Server, e: Endpoint, msg: Msg, e': Endpoint)
    requires R.DistinctIds(s.clients) && S.Receive(s, e, msg).Next?
    ensures var res, o := S.Receive(s, e, msg), Answer(s, e, msg);
            && !o.Undefined? && res.sent == S.ToPeer(e, o.sent) && res.s.ttlMax == s.ttlMax
            && RecordOf(res.s.clients, e') == if e' != e then RecordOf(s.clients, e') else FoundAfter(o)
  {
    var i := S.IndexOf(s.clients, e);
    if i < |s.clients| {
      var o := S.Respond(s.ttlMax, s.clients[i], msg);
      R.RespondFaithful(s.ttlMax, s.clients[i], msg);
      OutcomeRecords(s, i, o, e');
    } else if msg.kind == TYPE_DISCOVER && s.pool != [] {
      var s' := S.Create(s, e);
      CreateRecords(s, e, e');
      R.RespondFaithful(s.ttlMax, s'.clients[0], msg);
      OutcomeRecords(s', 0, S.Respond(s.ttlMax, s'.clients[0], msg), e');
    } else if msg.kind == TYPE_DISCOVER {
      assert S.ToPeer(e, [OfferNg()]) == [Packet(e, OfferNg())];
    }
  }

  // ---------------------------------------------------------------- the invariant

  /** What a live client relies on. A client that asked for an address shares it with its record,
      and a client using one has a record in use that outlives its own lease. */
  ghost predicate ClientOk(ttlMax: nat, c: C.Client, found: Found) {
    && c.stat != C.Terminated
    && (!Offering(c) ==> c.ttlcounter == ttlMax && (found.Has? ==> found.r.addr == c.addr))
    && (Holding(c) ==> found.Has? && found.r.stat == S.InUse && c.ttl <= found.r.ttl && c.tout > 0)
  }

  ghost predicate Offering(c: C.Client) {
    c.stat == C.WaitOffer1 || c.stat == C.WaitOffer2
  }

  /** The client uses its address. */
  ghost predicate Holding(c: C.Client) {
    c.stat == C.InUse || c.stat == C.WaitExtAck
  }

  /** A message from a live client still in flight. */
  ghost predicate ToServerOk(ttlMax: nat, c: C.Client, found: Found, msg: Msg) {
    || (msg == DiscoverMsg() && (found.NoRecord? ==> Offering(c)))
    || (!Offering(c) && S.IsLeaseRequest(msg) && msg.ttl == ttlMax
        && (found.Has? ==> found.r.addr == Node(msg.ip, msg.mask)))
  }

  /** A grant in flight to a live client is backed by its record; an ACK by one in use. */
  ghost predicate ToClientOk(ttlMax: nat, found: Found, msg: Msg) {
    C.GrantsOffer(msg) || C.GrantsAck(msg) ==>
      && found.Has? && found.r.addr == Node(msg.ip, msg.mask) && msg.ttl == ttlMax
      && (C.GrantsAck(msg) ==> found.r.stat == S.InUse && ttlMax <= found.r.ttl)
  }

  ghost predicate EndpointOk(sys: Sys, e: Endpoint)
    requires e in sys.clients
  {
    var ttlMax, c, found := sys.server.ttlMax, sys.clients[e], RecordOf(sys.server.clients, e);
    && ClientOk(ttlMax, c, found)
    && (forall p :: p in sys.toServer && p.peer == e ==> ToServerOk(ttlMax, c, found, p.msg))
    && (forall p :: p in sys.toClient && p.peer == e ==> ToClientOk(ttlMax, found, p.msg))
  }

  ghost predicate Inv(config: seq<Node>, sys: Sys) {
    && R.Inv(config, sys.server)
    && (forall p :: p in sys.toServer || p in sys.toClient ==> p.peer in sys.clients)
    && (forall i :: 0 <= i < |sys.server.clients| ==> sys.server.clients[i].id in sys.clients)
    && (forall e :: Live(sys, e) ==> EndpointOk(sys, e))
  }

  lemma StartInv(ttlMax: nat, config: seq<Node>)
    ensures Inv(config, Start(ttlMax, config))
  {
  }

  // ---------------------------------------------------------------- one endpoint, step by step

  /** Serving a live client's message keeps what the client relies on. */
  lemma AnswerOk(s: S.Server, e: Endpoint, c: C.Client, msg: Msg)
    requires S.Receive(s, e, msg).Next?
    requires var found := RecordOf(s.clients, e);
             && ClientOk(s.ttlMax, c, found) && ToServerOk(s.ttlMax, c, found, msg)
             && (found.Has? ==> R.Timed(s.ttlMax, found.r))
    ensures var found, o := RecordOf(s.clients, e), Answer(s, e, msg);
            && ClientOk(s.ttlMax, c, FoundAfter(o))
            && (forall m :: ToServerOk(s.ttlMax, c, found, m) ==> ToServerOk(s.ttlMax, c, FoundAfter(o), m))
            && (forall m :: ToClientOk(s.ttlMax, found, m) ==> ToClientOk(s.ttlMax, FoundAfter(o), m))
            && (!o.Undefined? ==> forall i :: 0 <= i < |o.sent| ==> ToClientOk(s.ttlMax, FoundAfter(o), o.sent[i]))
  {
    AnswerKeepsMessages(s, e, c, msg);
    AnswerSends(s, e, c, msg);
  }

  /** What is sent in answer fits the record. */
  lemma AnswerSends(s: S.Server, e: Endpoint, c: C.Client, msg: Msg)
    requires S.Receive(s, e, msg).Next?
    requires var found := RecordOf(s.clients, e);
             && ClientOk(s.ttlMax, c, found) && ToServerOk(s.ttlMax, c, found, msg)
             && (found.Has? ==> R.Timed(s.ttlMax, found.r))
    ensures var o := Answer(s, e, msg);
            !o.Undefined? ==> forall i :: 0 <= i < |o.sent| ==> ToClientOk(s.ttlMax, FoundAfter(o), o.sent[i])
  {
  }

  /** Serving a live client's message keeps what is known of its other messages. */
  lemma AnswerKeepsMessages(s: S.Server, e: Endpoint, c: C.Client, msg: Msg)
    requires S.Receive(s, e, msg).Next?
    requires var found := RecordOf(s.clients, e);
             && ClientOk(s.ttlMax, c, found) && ToServerOk(s.ttlMax, c, found, msg)
             && (found.Has? ==> R.Timed(s.ttlMax, found.r))
    ensures var found, o := RecordOf(s.clients, e), Answer(s, e, msg);
            && (forall m :: ToServerOk(s.ttlMax, c, found, m) ==> ToServerOk(s.ttlMax, c, FoundAfter(o), m))
            && (forall m :: ToClientOk(s.ttlMax, found, m) ==> ToClientOk(s.ttlMax, FoundAfter(o), m))
  {
  }

  /** The client relies on no less after the turn, and what it sends fits its record. */
  ghost predicate TurnOk(ttlMax: nat, c: C.Client, found: Found, input: C.Input) {
    var (c', sent) := C.Turn(c, false, input);
    !c'.stop ==>
      && ClientOk(ttlMax, c', found)
      && (forall i :: 0 <= i < |sent| ==> ToServerOk(ttlMax, c', found, sent[i]))
  }

  lemma MessageTurnOk(ttlMax: nat, c: C.Client, found: Found, msg: Msg)
    requires ClientOk(ttlMax, c, found) && (found.Has? ==> R.Timed(ttlMax, found.r)) && ToClientOk(ttlMax, found, msg)
    ensures TurnOk(ttlMax, c, found, C.Message(msg))
  {
  }

  lemma SignalTurnOk(ttlMax: nat, c: C.Client, found: Found, input: C.Input)
    requires ClientOk(ttlMax, c, found) && (input.Hangup? || input.Interrupt?)
    ensures TurnOk(ttlMax, c, found, input)
  {
  }

  /** A live client's own turn, on a message or a signal, keeps what it relies on. */
  lemma ClientTurnOk(ttlMax: nat, c: C.Client, found: Found, input: C.Input)
    requires ClientOk(ttlMax, c, found) && (found.Has? ==> R.Timed(ttlMax, found.r))
    requires input.Message? || input.Hangup? || input.Interrupt?
    requires input.Message? ==> ToClientOk(ttlMax, found, input.msg)
    ensures TurnOk(ttlMax, c, found, input)
    ensures var c' := C.Turn(c, false, input).0;
            !c'.stop ==> forall m :: ToServerOk(ttlMax, c, found, m) ==> ToServerOk(ttlMax, c', found, m)
  {
    if input.Message? {
      MessageTurnOk(ttlMax, c, found, input.msg);
    } else {
      SignalTurnOk(ttlMax, c, found, input);
    }
    TurnKeepsMessages(ttlMax, c, found, input);
  }

  lemma TurnKeepsMessages(ttlMax: nat, c: C.Client, found: Found, input: C.Input)
    requires ClientOk(ttlMax, c, found) && (input.Message? || input.Hangup? || input.Interrupt?)
    requires input.Message? ==> ToClientOk(ttlMax, found, input.msg)
    ensures var c' := C.Turn(c, false, input).0;
            !c'.stop ==> forall m :: ToServerOk(ttlMax, c, found, m) ==> ToServerOk(ttlMax, c', found, m)
  {
  }

  /** What a tick does to one record. */
  ghost function TickFound(ttlMax: nat, found: Found): Found {
    if found.NoRecord? then NoRecord else
      var o := S.SweepOutcome(ttlMax, S.TtlSweep, S.CountDown(found.r));
      if o.Keep? then FoundAfter(S.SweepOutcome(ttlMax, S.ToutSweep, o.r)) else NoRecord
  }

  /** A tick keeps what a live client relies on, whether or not the server still runs: its lease
      runs out no later than its record. */
  lemma ClientTickOk(ttlMax: nat, c: C.Client, found: Found, up: bool)
    requires ClientOk(ttlMax, c, found) && !c.stop
    ensures var ((c', sent), found') := (T.Tick(c), if up then TickFound(ttlMax, found) else found);
            !c'.stop ==>
              && ClientOk(ttlMax, c', found')
              && forall i :: 0 <= i < |sent| ==> ToServerOk(ttlMax, c', found', sent[i])
  {
    RecordTick(ttlMax, found);
    var d := C.CountDown(c);
    assert Holding(c) ==> C.Table(d.stat, C.IdleEvent(d)) in {C.NoAction, C.SendRequestExt, C.Terminate};
  }

  lemma RecordTick(ttlMax: nat, found: Found)
    ensures var found' := TickFound(ttlMax, found);
            && (found'.Has? ==> found.Has? && found'.r.addr == found.r.addr)
            && (found.Has? && found.r.stat == S.InUse ==> (found'.Has? <==> found.r.ttl > 1))
            && (found'.Has? && found.r.stat == S.InUse ==> found'.r.stat == S.InUse && found'.r.ttl == found.r.ttl - 1)
  {
  }

  // ---------------------------------------------------------------- records over a tick

  lemma {:induction false} KeptRecords(ttlMax: nat, vs: seq<S.Verdict>, e: Endpoint)
    requires R.FaithfulVerdicts(ttlMax, vs) && R.DistinctIds(R.Records(vs))
    ensures var i := S.IndexOf(R.Records(vs), e);
            RecordOf(S.Kept(vs), e) == if i < |vs| then FoundAfter(vs[i].o) else NoRecord
  {
    if vs == [] {
    } else {
      var v, rest := vs[0], vs[1..];
      assert R.Records(rest) == R.Records(vs)[1..];
      KeptRecords(ttlMax, rest, e);
      R.SweepKeepsIds(ttlMax, rest);
      assert S.Kept(vs) == S.KeptOf(v) + S.Kept(rest);
      if v.o.Keep? {
        assert S.Kept(vs)[1..] == S.Kept(rest);
      } else {
        assert S.Kept(vs) == S.Kept(rest);
      }
      if v.r.id == e {
        assert S.IndexOf(R.Records(rest), e) == |rest| by {
          forall j | 0 <= j < |rest| ensures R.Records(rest)[j].id != e {
            assert R.Records(vs)[0].id != R.Records(vs)[j + 1].id;
          }
        }
      }
    }
  }

  lemma SweptRecords(s: S.Server, sweep: S.Sweep, e: Endpoint)
    requires R.DistinctIds(s.clients)
    ensures var found := RecordOf(s.clients, e);
            RecordOf(S.Swept(s, sweep).clients, e) ==
              if found.Has? then FoundAfter(S.SweepOutcome(s.ttlMax, sweep, found.r)) else NoRecord
    ensures R.DistinctIds(S.Swept(s, sweep).clients)
  {
    var vs := R.SweepVerdicts(s, sweep);
    KeptRecords(s.ttlMax, vs, e);
    R.SweepKeepsDistinct(s.ttlMax, vs);
  }

  lemma CountDownRecords(cs: seq<S.Record>, e: Endpoint)
    requires R.DistinctIds(cs)
    ensures R.DistinctIds(S.CountDownAll(cs))
    ensures RecordOf(S.CountDownAll(cs), e) ==
              if RecordOf(cs, e).Has? then Has(S.CountDown(RecordOf(cs, e).r)) else NoRecord
  {
  }

  lemma TickRecords(s: S.Server, e: Endpoint)
    requires R.DistinctIds(s.clients)
    ensures RecordOf(S.Turn(s, true, S.Nothing).s.clients, e) == TickFound(s.ttlMax, RecordOf(s.clients, e))
  {
    var u := s.(clients := S.CountDownAll(s.clients));
    CountDownRecords(s.clients, e);
    SweptRecords(u, S.TtlSweep, e);
    SweptRecords(S.Swept(u, S.TtlSweep), S.ToutSweep, e);
  }

  lemma {:induction false} SentOrigin(vs: seq<S.Verdict>, i: nat) returns (j: nat)
    requires i < |S.Sent(vs)|
    ensures j < |vs| && S.Sent(vs)[i] in S.SentOf(vs[j])
  {
    var k := |S.SentOf(vs[0])|;
    if i < k {
      j := 0;
    } else {
      assert S.Sent(vs)[i] == S.Sent(vs[1..])[i - k];
      j := SentOrigin(vs[1..], i - k);
      j := j + 1;
    }
  }

  lemma TtlSweepSendsNothing(s: S.Server)
    ensures S.SweepSent(s.ttlMax, S.TtlSweep, s.clients) == []
  {
    Seqs.NoPieces(S.SentOf, S.Verdicts(s.ttlMax, S.TtlSweep, s.clients));
  }

  /** The only messages a tick makes the server send are offers of the address it still holds for
      the client. */
  lemma TickSends(s: S.Server, i: nat)
    requires R.DistinctIds(s.clients) && i < |S.Turn(s, true, S.Nothing).sent|
    ensures var turn := S.Turn(s, true, S.Nothing);
            var found := RecordOf(turn.s.clients, turn.sent[i].peer);
            found.Has? && turn.sent[i].msg == OfferOk(s.ttlMax, found.r.addr)
  {
    var u := s.(clients := S.CountDownAll(s.clients));
    var t := S.Swept(u, S.TtlSweep);
    TtlSweepSendsNothing(u);
    var ws := S.Verdicts(t.ttlMax, S.ToutSweep, t.clients);
    assert S.IdleSent(u) == S.Sent(ws);
    var j := SentOrigin(ws, i);
    CountDownRecords(s.clients, t.clients[j].id);
    SweptRecords(u, S.TtlSweep, t.clients[j].id);
    SweptRecords(t, S.ToutSweep, t.clients[j].id);
    RecordOfAt(t.clients, j);
    ResentOffer(s.ttlMax, t.clients[j]);
  }

  lemma ResentOffer(ttlMax: nat, r: S.Record)
    ensures var v := S.Verdict(r, S.SweepOutcome(ttlMax, S.ToutSweep, r));
            S.SentOf(v) != [] ==>
              v.o.Keep? && v.o.r.addr == r.addr && S.SentOf(v) == [Packet(r.id, OfferOk(ttlMax, r.addr))]
  {
    assert S.ToPeer(r.id, [OfferOk(ttlMax, r.addr)]) == [Packet(r.id, OfferOk(ttlMax, r.addr))];
  }

  // ---------------------------------------------------------------- the system, step by step

  lemma HasIsListed(config: seq<Node>, sys: Sys, e: Endpoint)
    requires Inv(config, sys) && RecordOf(sys.server.clients, e).Has?
    ensures e in sys.clients
    ensures R.Timed(sys.server.ttlMax, RecordOf(sys.server.clients, e).r)
  {
  }

  lemma BeginKeepsInv(config: seq<Node>, sys: Sys, e: Endpoint)
    requires Inv(config, sys) && e !in sys.clients
    ensures Inv(config, Next(sys, Begin(e)))
  {
    var sys' := Next(sys, Begin(e));
    if RecordOf(sys.server.clients, e).Has? { HasIsListed(config, sys, e); }
    forall e' | Live(sys', e') ensures EndpointOk(sys', e') {
      if e' != e {
        assert Live(sys, e');
      }
    }
  }

  lemma ServerTakesKeepsInv(config: seq<Node>, sys: Sys, p: Packet)
    requires Inv(config, sys) && Enabled(sys, ServerTakes(p))
    ensures Inv(config, Next(sys, ServerTakes(p)))
  {
    if S.Turn(sys.server, false, S.Datagram(p.peer, p.msg)).Next? {
      AnswerKeepsInv(config, sys, p);
    } else {
      StopKeepsInv(config, sys);
    }
  }

  lemma StopKeepsInv(config: seq<Node>, sys: Sys)
    requires Inv(config, sys)
    ensures Inv(config, sys.(up := false))
  {
    forall e | Live(sys.(up := false), e) ensures EndpointOk(sys.(up := false), e) {
      assert Live(sys, e) && EndpointOk(sys, e);
    }
  }

  lemma AnswerKeepsInv(config: seq<Node>, sys: Sys, p: Packet)
    requires Inv(config, sys) && Enabled(sys, ServerTakes(p))
    requires S.Turn(sys.server, false, S.Datagram(p.peer, p.msg)).Next?
    ensures Inv(config, Next(sys, ServerTakes(p)))
  {
    var s, sys' := sys.server, Next(sys, ServerTakes(p));
    R.TurnKeepsInv(config, s, false, S.Datagram(p.peer, p.msg));
    var o := Answer(s, p.peer, p.msg);
    ReceiveRecords(s, p.peer, p.msg, p.peer);
    ToPeerIs(p.peer, o.sent);
    forall i | 0 <= i < |sys'.server.clients| ensures sys'.server.clients[i].id in sys'.clients {
      var e := sys'.server.clients[i].id;
      RecordOfAt(sys'.server.clients, i);
      ReceiveRecords(s, p.peer, p.msg, e);
      if e != p.peer { HasIsListed(config, sys, e); }
    }
    forall e | Live(sys', e) ensures EndpointOk(sys', e) {
      assert Live(sys, e) && EndpointOk(sys, e);
      ReceiveRecords(s, p.peer, p.msg, e);
      if e == p.peer {
        if RecordOf(s.clients, e).Has? { HasIsListed(config, sys, e); }
        AnswerOk(s, e, sys.clients[e], p.msg);
      }
    }
  }

  lemma {:induction false} ToPeerIs(e: Endpoint, msgs: seq<Msg>)
    ensures |S.ToPeer(e, msgs)| == |msgs| && forall i :: 0 <= i < |msgs| ==> S.ToPeer(e, msgs)[i] == Packet(e, msgs[i])
  {
    if msgs == [] {
    } else {
      ToPeerIs(e, msgs[1..]);
    }
  }

  lemma ClientTurnKeepsInv(config: seq<Node>, sys: Sys, e: Endpoint, input: C.Input)
    requires Inv(config, sys) && Live(sys, e)
    requires input.Message? || input.Hangup? || input.Interrupt?
    requires input.Message? ==> Packet(e, input.msg) in sys.toClient
    ensures Inv(config, ClientTurn(sys, e, input))
  {
    var sys' := ClientTurn(sys, e, input);
    var found := RecordOf(sys.server.clients, e);
    assert EndpointOk(sys, e);
    if found.Has? { HasIsListed(config, sys, e); }
    ClientTurnOk(sys.server.ttlMax, sys.clients[e], found, input);
    forall e' | Live(sys', e') ensures EndpointOk(sys', e') {
      if e' != e { assert Live(sys, e') && EndpointOk(sys, e'); }
    }
  }

  lemma TickKeepsInv(config: seq<Node>, sys: Sys)
    requires Inv(config, sys)
    ensures Inv(config, TickAll(sys))
  {
    var s, sys' := sys.server, TickAll(sys);
    if sys.up { R.TurnKeepsInv(config, s, true, S.Nothing); }
    forall i | 0 <= i < |sys'.server.clients| ensures sys'.server.clients[i].id in sys'.clients {
      var e := sys'.server.clients[i].id;
      RecordOfAt(sys'.server.clients, i);
      TickRecords(s, e);
      HasIsListed(config, sys, e);
    }
    forall p | p in sys'.toClient
      ensures p.peer in sys'.clients && ToClientOk(s.ttlMax, RecordOf(sys'.server.clients, p.peer), p.msg)
    {
      TickPacket(config, sys, p);
    }
    forall e | Live(sys', e) ensures EndpointOk(sys', e) {
      assert Live(sys, e) && EndpointOk(sys, e);
      TickRecords(s, e);
      ClientTickOk(s.ttlMax, sys.clients[e], RecordOf(s.clients, e), sys.up);
    }
  }

  lemma TickPacket(config: seq<Node>, sys: Sys, p: Packet)
    requires Inv(config, sys) && p in TickAll(sys).toClient
    ensures p.peer in sys.clients
    ensures ToClientOk(sys.server.ttlMax, RecordOf(TickAll(sys).server.clients, p.peer), p.msg)
  {
    var turn := S.Turn(sys.server, true, S.Nothing);
    var i :| 0 <= i < |turn.sent| && turn.sent[i] == p;
    TickSends(sys.server, i);
    TickRecords(sys.server, p.peer);
    HasIsListed(config, sys, p.peer);
  }

  lemma StepKeepsInv(config: seq<Node>, sys: Sys, step: Step)
    requires Inv(config, sys) && Enabled(sys, step)
    ensures Inv(config, Next(sys, step))
  {
    match step
    case Begin(e) => BeginKeepsInv(config, sys, e);
    case ServerTakes(p) => ServerTakesKeepsInv(config, sys, p);
    case ClientTakes(p) => ClientTurnKeepsInv(config, sys, p.peer, C.Message(p.msg));
    case Signal(e, hangup) => ClientTurnKeepsInv(config, sys, e, if hangup then C.Hangup else C.Interrupt);
    case Tick => TickKeepsInv(config, sys);
  }

  lemma {:induction false} RunInv(ttlMax: nat, config: seq<Node>, steps: seq<Step>)
    requires IsRun(Start(ttlMax, config), steps)
    ensures Inv(config, After(Start(ttlMax, config), steps))
  {
    if steps == [] {
      StartInv(ttlMax, config);
    } else {
      var init := steps[..|steps| - 1];
      RunInv(ttlMax, config, init);
      StepKeepsInv(config, After(Start(ttlMax, config), init), steps[|steps| - 1]);
    }
  }

  // ---------------------------------------------------------------- exclusivity

  ghost predicate DistinctIps(config: seq<Node>) {
    forall i, j :: 0 <= i < j < |config| ==> config[i].ip != config[j].ip
  }

  /** Two records of the server never hold the same IP address. */
  lemma RecordsApart(config: seq<Node>, s: S.Server, i: nat, j: nat)
    requires R.Inv(config, s) && DistinctIps(config) && i < j < |s.clients|
    ensures s.clients[i].addr.ip != s.clients[j].addr.ip
  {
    var a := S.Addrs(s.clients);
    assert multiset(a) <= multiset(config);
    assert a[i] in multiset(a) && a[j] in multiset(a);
    if a[i] == a[j] {
      assert a == a[..i] + [a[i]] + a[i + 1..j] + [a[j]] + a[j + 1..];
      assert multiset(a)[a[i]] >= 2;
      OnceEach(config, a[i]);
    }
    assert a[i] in config && a[j] in config;
  }

  lemma {:induction false} OnceEach(config: seq<Node>, a: Node)
    requires DistinctIps(config)
    ensures multiset(config)[a] <= 1
  {
    if config == [] {
    } else {
      var init, last := config[..|config| - 1], config[|config| - 1];
      OnceEach(init, a);
      assert config == init + [last];
      assert last !in init;
    }
  }

  /** A client that uses an address is backed by a record in use for the same address, which will
      not expire before the client's lease does. */
  ghost predicate Backed(sys: Sys, e: Endpoint) {
    Live(sys, e) && Holding(sys.clients[e]) ==>
      var found, c := RecordOf(sys.server.clients, e), sys.clients[e];
      found.Has? && found.r.id == e && found.r.stat == S.InUse && found.r.addr == c.addr && c.ttl <= found.r.ttl
  }

  /** If both clients use an address, they use different ones. */
  ghost predicate Exclusive(sys: Sys, e1: Endpoint, e2: Endpoint) {
    Live(sys, e1) && Live(sys, e2) && Holding(sys.clients[e1]) && Holding(sys.clients[e2]) ==>
      sys.clients[e1].addr.ip != sys.clients[e2].addr.ip
  }

  lemma BackedIn(config: seq<Node>, sys: Sys, e: Endpoint)
    requires Inv(config, sys)
    ensures Backed(sys, e)
  {
  }

  lemma ExclusiveIn(config: seq<Node>, sys: Sys, e1: Endpoint, e2: Endpoint)
    requires Inv(config, sys) && DistinctIps(config) && e1 != e2
    ensures Exclusive(sys, e1, e2)
  {
    BackedIn(config, sys, e1);
    BackedIn(config, sys, e2);
    var i, j := S.IndexOf(sys.server.clients, e1), S.IndexOf(sys.server.clients, e2);
    if i < |sys.server.clients| && j < |sys.server.clients| {
      RecordsApart(config, sys.server, if i < j then i else j, if i < j then j else i);
    }
  }

  /** In every reachable state every client that uses an address is backed by a server record. */
  lemma HolderIsBacked(ttlMax: nat, config: seq<Node>, steps: seq<Step>)
    requires IsRun(Start(ttlMax, config), steps)
    ensures var sys := After(Start(ttlMax, config), steps);
            forall e :: Backed(sys, e)
  {
    RunInv(ttlMax, config, steps);
    var sys := After(Start(ttlMax, config), steps);
    forall e ensures Backed(sys, e) {
      BackedIn(config, sys, e);
    }
  }

  /** Lease exclusivity: in every reachable state, any two running clients that use an address use
      different addresses. */
  lemma LeasesAreExclusive(ttlMax: nat, config: seq<Node>, steps: seq<Step>)
    requires DistinctIps(config) && IsRun(Start(ttlMax, config), steps)
    ensures var sys := After(Start(ttlMax, config), steps);
            forall e1, e2 :: e1 != e2 ==> Exclusive(sys, e1, e2)
  {
    RunInv(ttlMax, config, steps);
    var sys := After(Start(ttlMax, config), steps);
    forall e1, e2 | e1 != e2 ensures Exclusive(sys, e1, e2) {
      ExclusiveIn(config, sys, e1, e2);
    }
  }

  // ---------------------------------------------------------------- a lease can be had

  /** `steps` is a run from `sys` to `w`. */
  ghost predicate RunsTo(sys: Sys, steps: seq<Step>, w: Sys) {
    IsRun(sys, steps) && After(sys, steps) == w
  }

  lemma Extend(sys: Sys, steps: seq<Step>, w: Sys, step: Step)
    requires RunsTo(sys, steps, w) && Enabled(w, step)
    ensures RunsTo(sys, steps + [step], Next(w, step))
  {
    assert (steps + [step])[..|steps|] == steps;
  }

  lemma {:induction false} Chain(sys: Sys, first: seq<Step>, w: Sys, rest: seq<Step>, end: Sys)
    requires RunsTo(sys, first, w) && RunsTo(w, rest, end)
    ensures RunsTo(sys, first + rest, end)
    decreases |rest|
  {
    if rest == [] {
      assert first + rest == first;
    } else {
      var init, last := rest[..|rest| - 1], rest[|rest| - 1];
      Chain(sys, first, w, init, After(w, init));
      Extend(sys, first + init, After(w, init), last);
      assert first + rest == first + init + [last];
    }
  }

  /** One request served, seen from the record of its sender. */
  lemma Served(config: seq<Node>, sys: Sys, e: Endpoint, msg: Msg) returns (w: Sys)
    requires R.Inv(config, sys.server) && sys.up
    requires Packet(e, msg) in sys.toServer && Answer(sys.server, e, msg).Keep?
    requires !Unnamed(msg) && (RecordOf(sys.server.clients, e).Has? || msg.kind == TYPE_DISCOVER)
    ensures Enabled(sys, ServerTakes(Packet(e, msg))) && w == Next(sys, ServerTakes(Packet(e, msg)))
    ensures R.Inv(config, w.server) && w.server.ttlMax == sys.server.ttlMax
    ensures w.up && w.clients == sys.clients && w.toServer == sys.toServer && sys.toClient <= w.toClient
    ensures var o := Answer(sys.server, e, msg);
            && RecordOf(w.server.clients, e) == Has(o.r)
            && forall i :: 0 <= i < |o.sent| ==> Packet(e, o.sent[i]) in w.toClient
  {
    var o := Answer(sys.server, e, msg);
    w := Next(sys, ServerTakes(Packet(e, msg)));
    R.FatalCrashes(sys.server, e, msg);
    R.TurnKeepsInv(config, sys.server, false, S.Datagram(e, msg));
    ReceiveRecords(sys.server, e, msg, e);
    ToPeerIs(e, o.sent);
    var turn := S.Turn(sys.server, false, S.Datagram(e, msg));
    forall i | 0 <= i < |o.sent| ensures Packet(e, o.sent[i]) in w.toClient {
      assert turn.sent[i] == Packet(e, o.sent[i]);
    }
  }

  /** The messages of a client that gets address `a`. */
  ghost function Exchange(e: Endpoint, a: Node, ttlMax: nat): seq<Step> {
    [Begin(e), ServerTakes(Packet(e, DiscoverMsg())), ClientTakes(Packet(e, OfferOk(ttlMax, a))),
     ServerTakes(Packet(e, RequestMsg(CODE_REQ_ALLOC, ttlMax, a))), ClientTakes(Packet(e, AckOk(ttlMax, a)))]
  }

  /** The client holds address `a` for `ttl` ticks. */
  ghost predicate Granted(sys: Sys, e: Endpoint, a: Node, ttl: nat) {
    && Live(sys, e) && sys.clients[e].stat == C.InUse && sys.clients[e].addr == a
    && sys.clients[e].ttl == ttl && sys.clients[e].ttlcounter == ttl
  }

  /** No other client was touched, and nothing that was in flight to a client is lost. */
  ghost predicate OthersKept(sys: Sys, w: Sys, e: Endpoint) {
    && sys.toClient <= w.toClient && w.clients.Keys == sys.clients.Keys + {e}
    && forall e' :: e' in sys.clients && e' != e ==> w.clients[e'] == sys.clients[e']
  }

  lemma Offered(config: seq<Node>, sys: Sys, e: Endpoint) returns (w: Sys)
    requires R.Inv(config, sys.server) && sys.up && e !in sys.clients && sys.server.pool != []
    requires RecordOf(sys.server.clients, e).NoRecord?
    ensures var a, ttlMax := sys.server.pool[0], sys.server.ttlMax;
            && RunsTo(sys, Exchange(e, a, ttlMax)[..2], w) && OthersKept(sys, w, e)
            && R.Inv(config, w.server) && w.up && w.server.ttlMax == ttlMax
            && e in w.clients && w.clients[e] == C.Begin()
            && Packet(e, OfferOk(ttlMax, a)) in w.toClient
            && RecordOf(w.server.clients, e).Has?
            && RecordOf(w.server.clients, e).r.stat == S.WaitReq1 && RecordOf(w.server.clients, e).r.addr == a
  {
    var a, ttlMax := sys.server.pool[0], sys.server.ttlMax;
    var s1 := Next(sys, Begin(e));
    Extend(sys, [], sys, Begin(e));
    w := Served(config, s1, e, DiscoverMsg());
    assert Answer(s1.server, e, DiscoverMsg()).sent[0] == OfferOk(ttlMax, a);
    Extend(sys, [Begin(e)], s1, ServerTakes(Packet(e, DiscoverMsg())));
    assert [] + [Begin(e)] == [Begin(e)];
    assert Exchange(e, a, ttlMax)[..2] == [Begin(e)] + [ServerTakes(Packet(e, DiscoverMsg()))];
  }

  /** The server has granted the client an address, and the client waits to hear of it. */
  ghost predicate Awaits(sys: Sys, e: Endpoint, a: Node) {
    && Live(sys, e) && sys.clients[e].stat == C.WaitAck1 && sys.clients[e].tout == MESSAGE_TIMEOUT
    && sys.clients[e].ttl <= 0 && Packet(e, AckOk(sys.server.ttlMax, a)) in sys.toClient
    && var found := RecordOf(sys.server.clients, e);
       found.Has? && found.r.stat == S.InUse && found.r.ttl == sys.server.ttlMax && found.r.addr == a
  }

  /** An offer from a waiting record is taken, and the request for it granted. */
  lemma OfferTaken(config: seq<Node>, sys: Sys, e: Endpoint, a: Node) returns (w: Sys)
    requires R.Inv(config, sys.server) && sys.up && Live(sys, e) && Offering(sys.clients[e]) && sys.clients[e].ttl <= 0
    requires Packet(e, OfferOk(sys.server.ttlMax, a)) in sys.toClient
    requires var found := RecordOf(sys.server.clients, e); found.Has? && found.r.stat == S.WaitReq1 && found.r.addr == a
    ensures RunsTo(sys, Exchange(e, a, sys.server.ttlMax)[2..4], w) && OthersKept(sys, w, e)
    ensures R.Inv(config, w.server) && w.up && w.server.ttlMax == sys.server.ttlMax && Awaits(w, e, a)
  {
    var ttlMax := sys.server.ttlMax;
    var offer, request, ack := OfferOk(ttlMax, a), RequestMsg(CODE_REQ_ALLOC, ttlMax, a), AckOk(ttlMax, a);
    var s3 := Next(sys, ClientTakes(Packet(e, offer)));
    Extend(sys, [], sys, ClientTakes(Packet(e, offer)));
    assert C.Turn(sys.clients[e], false, C.Message(offer)).1[0] == request;
    w := Served(config, s3, e, request);
    assert Answer(s3.server, e, request).sent[0] == ack;
    Extend(sys, [] + [ClientTakes(Packet(e, offer))], s3, ServerTakes(Packet(e, request)));
    assert Exchange(e, a, ttlMax)[2..4] ==
           [] + [ClientTakes(Packet(e, offer))] + [ServerTakes(Packet(e, request))];
  }

  lemma AckTaken(sys: Sys, e: Endpoint, a: Node, ttl: nat)
    requires Live(sys, e) && sys.clients[e].stat == C.WaitAck1 && Packet(e, AckOk(ttl, a)) in sys.toClient
    ensures var step := ClientTakes(Packet(e, AckOk(ttl, a)));
            Enabled(sys, step) && Granted(Next(sys, step), e, a, ttl) && OthersKept(sys, Next(sys, step), e)
  {
  }

  /** A client that gets as far as being granted its address, not having heard of it. */
  lemma RequestGranted(config: seq<Node>, sys: Sys, e: Endpoint) returns (w: Sys)
    requires R.Inv(config, sys.server) && sys.up && e !in sys.clients && sys.server.pool != []
    requires RecordOf(sys.server.clients, e).NoRecord?
    ensures var a, ttlMax := sys.server.pool[0], sys.server.ttlMax;
            && RunsTo(sys, Exchange(e, a, ttlMax)[..4], w) && OthersKept(sys, w, e)
            && R.Inv(config, w.server) && w.up && w.server.ttlMax == ttlMax && Awaits(w, e, a)
  {
    var exchange := Exchange(e, sys.server.pool[0], sys.server.ttlMax);
    var s := Offered(config, sys, e);
    w := OfferTaken(config, s, e, sys.server.pool[0]);
    Chain(sys, exchange[..2], s, exchange[2..4], w);
    assert exchange[..4] == exchange[..2] + exchange[2..4];
  }

  lemma ExchangeGrants(config: seq<Node>, sys: Sys, e: Endpoint) returns (w: Sys)
    requires R.Inv(config, sys.server) && sys.up && e !in sys.clients && sys.server.pool != []
    requires RecordOf(sys.server.clients, e).NoRecord?
    ensures var a, ttlMax := sys.server.pool[0], sys.server.ttlMax;
            RunsTo(sys, Exchange(e, a, ttlMax), w) && w.up && Granted(w, e, a, ttlMax) && OthersKept(sys, w, e)
  {
    var a, ttlMax := sys.server.pool[0], sys.server.ttlMax;
    var s := RequestGranted(config, sys, e);
    var step := ClientTakes(Packet(e, AckOk(ttlMax, a)));
    AckTaken(s, e, a, ttlMax);
    w := Next(s, step);
    Extend(sys, Exchange(e, a, ttlMax)[..4], s, step);
    assert Exchange(e, a, ttlMax) == Exchange(e, a, ttlMax)[..4] + [step];
  }

  /** From any reachable state, a new client whose messages are delivered is granted the first
      address of the pool for the full lifetime. */
  lemma DeliveredExchangeGrants(config: seq<Node>, sys: Sys, e: Endpoint) returns (w: Sys)
    requires Inv(config, sys) && sys.up && e !in sys.clients && sys.server.pool != []
    ensures var a, ttlMax := sys.server.pool[0], sys.server.ttlMax;
            RunsTo(sys, Exchange(e, a, ttlMax), w) && w.up && Granted(w, e, a, ttlMax)
  {
    if RecordOf(sys.server.clients, e).Has? { HasIsListed(config, sys, e); }
    w := ExchangeGrants(config, sys, e);
  }

  // ---------------------------------------------------------------- messages must not outlive a tick

  /** A tick of a network that loses nothing. */
  ghost function LateTick(sys: Sys): Sys {
    var w := TickAll(sys);
    w.(toServer := w.toServer + sys.toServer, toClient := w.toClient + sys.toClient)
  }

  lemma OnlyRecord(a: Node, s: S.Server, e: Endpoint)
    requires R.Inv([a], s) && RecordOf(s.clients, e).Has?
    ensures s.pool == [] && s.clients == [RecordOf(s.clients, e).r]
  {
    assert |multiset(s.pool)| + |multiset(S.Addrs(s.clients))| == |multiset([a])|;
    assert |s.pool| + |s.clients| == 1;
  }

  lemma LastTick(s: S.Server, r: S.Record)
    requires s.pool == [] && s.clients == [r] && r.stat == S.InUse && r.ttl == 1
    ensures S.Turn(s, true, S.Nothing).s == s.(pool := [r.addr], clients := [])
  {
    var u := s.(clients := S.CountDownAll(s.clients));
    var vs := S.Verdicts(s.ttlMax, S.TtlSweep, u.clients);
    assert u.clients == [S.CountDown(r)] && vs == [vs[0]];
    Seqs.FlatMapOne(S.KeptOf, vs[0]);
    Seqs.FlatMapOne(S.FreedOf, vs[0]);
    assert s.pool + [r.addr] == [r.addr];
    var w := S.Swept(u, S.TtlSweep);
    assert S.Verdicts(s.ttlMax, S.ToutSweep, w.clients) == [];
    assert w.pool + [] == w.pool;
  }

  /** With a lifetime of one tick, a granted address is back in the pool after the tick, and the
      grant is still under way to its client. */
  lemma GrantOutlived(a: Node, sys: Sys, e: Endpoint)
    requires R.Inv([a], sys.server) && sys.up && sys.server.ttlMax == 1 && Awaits(sys, e, a)
    ensures var w := LateTick(sys);
            && w.up && w.server.ttlMax == 1 && R.Inv([a], w.server) && w.server.pool == [a] && w.server.clients == []
            && w.clients.Keys == sys.clients.Keys && Live(w, e) && w.clients[e].stat == C.WaitAck1
            && Packet(e, AckOk(1, a)) in w.toClient
  {
    OnlyRecord(a, sys.server, e);
    LastTick(sys.server, sys.server.clients[0]);
    R.TurnKeepsInv([a], sys.server, true, S.Nothing);
    AwaitingTick(sys.clients[e]);
    LateTickKeeps(sys, e);
  }

  lemma AwaitingTick(c: C.Client)
    requires !c.stop && c.stat == C.WaitAck1 && c.tout == MESSAGE_TIMEOUT && c.ttl <= 0
    ensures var c' := T.Tick(c).0; !c'.stop && c'.stat == C.WaitAck1
  {
  }

  lemma LateTickKeeps(sys: Sys, e: Endpoint)
    requires e in sys.clients && sys.up
    ensures var w := LateTick(sys);
            && w.server == S.Turn(sys.server, true, S.Nothing).s && w.up && sys.toClient <= w.toClient
            && w.clients.Keys == sys.clients.Keys && w.clients[e] == T.Tick(sys.clients[e]).0
  {
  }

  /** Why a message must not outlive a tick. With one address and a lifetime of one tick: a client
      is granted the address, the ACK is delayed over a tick, and the address goes to another
      client. Then the ACK arrives, and both use it. */
  lemma LateAckSharesAddress(a: Node, e1: Endpoint, e2: Endpoint) returns (s: Sys, w: Sys)
    requires e1 != e2
    ensures RunsTo(Start(1, [a]), Exchange(e1, a, 1)[..4], s)
    ensures RunsTo(LateTick(s), Exchange(e2, a, 1), w)
    ensures var late := ClientTakes(Packet(e1, AckOk(1, a)));
            && Enabled(w, late)
            && Granted(Next(w, late), e1, a, 1) && Granted(Next(w, late), e2, a, 1)
            && !Exclusive(Next(w, late), e1, e2)
  {
    R.StartInv(1, [a]);
    s := RequestGranted([a], Start(1, [a]), e1);
    w := AddressPassedOn(a, s, e1, e2);
    BothGranted(w, e1, e2, a);
  }

  lemma AddressPassedOn(a: Node, s: Sys, e1: Endpoint, e2: Endpoint) returns (w: Sys)
    requires R.Inv([a], s.server) && s.up && s.server.ttlMax == 1 && Awaits(s, e1, a) && e2 !in s.clients
    ensures RunsTo(LateTick(s), Exchange(e2, a, 1), w) && Granted(w, e2, a, 1)
    ensures Live(w, e1) && w.clients[e1].stat == C.WaitAck1 && Packet(e1, AckOk(1, a)) in w.toClient
  {
    GrantOutlived(a, s, e1);
    w := ExchangeGrants([a], LateTick(s), e2);
  }

  lemma BothGranted(sys: Sys, e1: Endpoint, e2: Endpoint, a: Node)
    requires e1 != e2 && Granted(sys, e2, a, 1)
    requires Live(sys, e1) && sys.clients[e1].stat == C.WaitAck1 && Packet(e1, AckOk(1, a)) in sys.toClient
    ensures var late := ClientTakes(Packet(e1, AckOk(1, a)));
            && Enabled(sys, late)
            && Granted(Next(sys, late), e1, a, 1) && Granted(Next(sys, late), e2, a, 1)
            && !Exclusive(Next(sys, late), e1, e2)
  {
    AckTaken(sys, e1, a, 1);
  }

  // ---------------------------------------------------------------- honest clients can stop the server

  /** What a release does: the record is gone, and the server still runs. */
  lemma Released(config: seq<Node>, sys: Sys, e: Endpoint) returns (w: Sys)
    requires Inv(config, sys) && sys.up && Live(sys, e) && Holding(sys.clients[e])
    ensures var release := Packet(e, ReleaseMsg(sys.clients[e].addr));
            && RunsTo(sys, [Signal(e, true), ServerTakes(release)], w)
            && w.up && w.toServer == sys.toServer + {release} && RecordOf(w.server.clients, e).NoRecord?
  {
    var msg := ReleaseMsg(sys.clients[e].addr);
    var s1 := Next(sys, Signal(e, true));
    assert EndpointOk(sys, e);
    assert C.Turn(sys.clients[e], false, C.Hangup).1 == [msg];
    FromPeerOne(e, msg);
    Extend(sys, [], sys, Signal(e, true));
    R.FatalCrashes(s1.server, e, msg);
    ReceiveRecords(s1.server, e, msg, e);
    w := Next(s1, ServerTakes(Packet(e, msg)));
    Extend(sys, [] + [Signal(e, true)], s1, ServerTakes(Packet(e, msg)));
    assert [] + [Signal(e, true)] + [ServerTakes(Packet(e, msg))] == [Signal(e, true), ServerTakes(Packet(e, msg))];
  }

  /** A message that reaches the server after the release of its sender stops it: a repeated
      release, or a request that the release overtook. */
  lemma LateMessageStopsServer(config: seq<Node>, sys: Sys, e: Endpoint, msg: Msg) returns (w: Sys)
    requires Inv(config, sys) && sys.up && Live(sys, e) && Holding(sys.clients[e])
    requires msg == ReleaseMsg(sys.clients[e].addr) || (S.IsLeaseRequest(msg) && Packet(e, msg) in sys.toServer)
    ensures RunsTo(sys, [Signal(e, true), ServerTakes(Packet(e, ReleaseMsg(sys.clients[e].addr))),
                         ServerTakes(Packet(e, msg))], w) && !w.up
  {
    var release := ServerTakes(Packet(e, ReleaseMsg(sys.clients[e].addr)));
    var s := Released(config, sys, e);
    R.FatalCrashes(s.server, e, msg);
    var late := ServerTakes(Packet(e, msg));
    w := Next(s, late);
    Extend(sys, [Signal(e, true), release], s, late);
    assert [Signal(e, true), release] + [late] == [Signal(e, true), release, late];
  }

  /** After half of a lifetime of 2, the holder has asked for an extension. */
  lemma AskedForMore(config: seq<Node>, sys: Sys, e: Endpoint, a: Node)
    requires Inv(config, sys) && sys.up && Granted(sys, e, a, 2)
    ensures var w := TickAll(sys);
            && w.up && Live(w, e) && Holding(w.clients[e]) && w.clients[e].addr == a
            && Packet(e, RequestMsg(CODE_REQ_EXT, 2, a)) in w.toServer
  {
    var c := sys.clients[e];
    assert EndpointOk(sys, e);
    assert T.Tick(c).1[0] == RequestMsg(CODE_REQ_EXT, 2, a);
  }

  /** The failing input: a client asks for an address, gets it, asks to extend the lease, and is
      hung up. The release overtakes the request, and the server is gone, although no message was
      lost, repeated or forged. */
  lemma HonestRunStopsServer(config: seq<Node>, e: Endpoint) returns (w: Sys)
    requires config != []
    ensures var a := config[0];
            RunsTo(Start(2, config),
                   Exchange(e, a, 2) + ([Tick] + [Signal(e, true), ServerTakes(Packet(e, ReleaseMsg(a))),
                                                  ServerTakes(Packet(e, RequestMsg(CODE_REQ_EXT, 2, a)))]), w)
            && !w.up
  {
    var sys, a := Start(2, config), config[0];
    StartInv(2, config);
    var s := DeliveredExchangeGrants(config, sys, e);
    RunInv(2, config, Exchange(e, a, 2));
    AskedForMore(config, s, e, a);
    Extend(s, [], s, Tick);
    StepKeepsInv(config, s, Tick);
    w := LateMessageStopsServer(config, TickAll(s), e, RequestMsg(CODE_REQ_EXT, 2, a));
    assert [] + [Tick] == [Tick];
    Chain(s, [Tick], TickAll(s), [Signal(e, true), ServerTakes(Packet(e, ReleaseMsg(a))),
                                  ServerTakes(Packet(e, RequestMsg(CODE_REQ_EXT, 2, a)))], w);
    Chain(sys, Exchange(e, a, 2), s, [Tick] + [Signal(e, true), ServerTakes(Packet(e, ReleaseMsg(a))),
                                               ServerTakes(Packet(e, RequestMsg(CODE_REQ_EXT, 2, a)))], w);
  }
}
