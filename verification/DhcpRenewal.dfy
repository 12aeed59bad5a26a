/** Leases that are kept: a client whose messages get through holds its address for as long as it
    likes; and what becomes of one whose messages do not. */
module DhcpRenewal {
  import opened DhcpMessages
  import opened DhcpLease
  import S = DhcpServer
  import R = DhcpServerRuns
  import A = DhcpAnswers
  import C = DhcpClient
  import T = DhcpClientTurns

  // ---------------------------------------------------------------- ticks of the whole system

  function TickSteps(n: nat): seq<Step> {
    seq(n, i => Step.Tick)
  }

  /** `n` ticks, with no message delivered. A client is then as if it were alone, and what it sent
      with the last of them is on its way. */
  ghost predicate TicksTo(config: seq<Node>, sys: Sys, n: nat, w: Sys) {
    && RunsTo(sys, TickSteps(n), w) && Inv(config, w) && w.up == sys.up && w.server.ttlMax == sys.server.ttlMax
    && w.clients.Keys == sys.clients.Keys
  }

  ghost predicate AloneAfter(sys: Sys, n: nat, w: Sys, e: Endpoint) {
    && e in sys.clients && e in w.clients && w.clients[e] == T.Alone(sys.clients[e], n)
    && (n > 0 ==> forall m :: m in T.Tick(T.Alone(sys.clients[e], n - 1)).1 <==> Packet(e, m) in w.toServer)
  }

  lemma {:induction false} LetTick(config: seq<Node>, sys: Sys, e: Endpoint, n: nat) returns (w: Sys)
    requires Inv(config, sys) && e in sys.clients
    ensures TicksTo(config, sys, n, w) && AloneAfter(sys, n, w, e)
  {
    if n == 0 {
      w := sys;
      assert TickSteps(0) == [];
    } else {
      var v := LetTick(config, sys, e, n - 1);
      w := TickAll(v);
      Extend(sys, TickSteps(n - 1), v, Step.Tick);
      assert TickSteps(n - 1) + [Step.Tick] == TickSteps(n);
      StepKeepsInv(config, v, Step.Tick);
      ClientTicks(v, e);
    }
  }

  lemma ClientTicks(sys: Sys, e: Endpoint)
    requires e in sys.clients
    ensures var w := TickAll(sys);
            && w.clients.Keys == sys.clients.Keys && w.clients[e] == T.Tick(sys.clients[e]).0
            && forall m :: m in T.Tick(sys.clients[e]).1 <==> Packet(e, m) in w.toServer
  {
    var sent := T.Tick(sys.clients[e]).1;
    forall m | m in sent ensures Packet(e, m) in TickAll(sys).toServer {
      var i :| 0 <= i < |sent| && sent[i] == m;
      assert Packet(e, sent[i]) in TickAll(sys).toServer;
    }
  }

  /** Messages that are lost: a client that nobody answers has its message on the way again after ten
      ticks, and has stopped after twenty, whatever state the server is in. */
  lemma UnansweredInSystem(config: seq<Node>, sys: Sys, e: Endpoint, n: nat) returns (w: Sys)
    requires Inv(config, sys) && Live(sys, e) && 0 < n <= 20
    requires var c := sys.clients[e];
             (c.stat == C.WaitOffer1 || c.stat == C.WaitAck1) && c.tout == 10 && c.ttl <= 0
    ensures RunsTo(sys, TickSteps(n), w) && e in w.clients && (w.clients[e].stop <==> n == 20)
    ensures var c := sys.clients[e];
            var again := if c.stat == C.WaitOffer1 then Msg(1, 0, 0, 0, 0)
                         else Msg(3, 2, c.ttlcounter, c.addr.ip, c.addr.mask);
            forall m :: Packet(e, m) in w.toServer <==> n == 10 && m == again
  {
    w := LetTick(config, sys, e, n);
    SentAgain(sys.clients[e], n);
  }

  lemma SentAgain(c: C.Client, n: nat)
    requires (c.stat == C.WaitOffer1 || c.stat == C.WaitAck1) && c.tout == 10 && c.ttl <= 0 && !c.stop && 0 < n <= 20
    ensures T.Alone(c, n).stop <==> n == 20
    ensures var again := if c.stat == C.WaitOffer1 then Msg(1, 0, 0, 0, 0)
                         else Msg(3, 2, c.ttlcounter, c.addr.ip, c.addr.mask);
            T.Tick(T.Alone(c, n - 1)).1 == if n == 10 then [again] else []
  {
    T.UnansweredEnds(c, n);
    T.UnansweredEnds(c, n - 1);
  }

  // ---------------------------------------------------------------- one renewal

  /** The client asks for an extension, is heard, and hears the answer. */
  function Renewal(e: Endpoint, a: Node, ttlMax: nat): seq<Step> {
    [Step.Tick, ServerTakes(Packet(e, Msg(3, 3, ttlMax, a.ip, a.mask))),
     ClientTakes(Packet(e, Msg(4, 0, ttlMax, a.ip, a.mask)))]
  }

  /** The client has the address for the whole lifetime, and so says the server. */
  ghost predicate Renewed(config: seq<Node>, w: Sys, e: Endpoint, a: Node) {
    && Inv(config, w) && w.up && Granted(w, e, a, w.server.ttlMax) && w.clients[e].tout == 10
    && var found := RecordOf(w.server.clients, e);
       found.Has? && found.r.stat == S.InUse && found.r.ttl == w.server.ttlMax && found.r.addr == a
  }

  /** The next tick leaves the client half of its time, and some. */
  ghost predicate AtHalf(sys: Sys, e: Endpoint) {
    Live(sys, e) && sys.clients[e].stat == C.InUse && 1 < sys.clients[e].ttl <= sys.server.ttlMax / 2 + 1
  }

  lemma AsksAtHalf(config: seq<Node>, sys: Sys, e: Endpoint)
    requires Inv(config, sys) && sys.up && AtHalf(sys, e)
    ensures var a, ttlMax, w := sys.clients[e].addr, sys.server.ttlMax, TickAll(sys);
            && w.up && Inv(config, w) && w.server.ttlMax == ttlMax && Live(w, e)
            && w.clients[e].stat == C.WaitExtAck && w.clients[e].addr == a
            && Packet(e, Msg(3, 3, ttlMax, a.ip, a.mask)) in w.toServer
            && var found := RecordOf(w.server.clients, e);
               found.Has? && found.r.id == e && found.r.stat == S.InUse && found.r.addr == a
  {
    var c := sys.clients[e];
    assert EndpointOk(sys, e);
    T.HoldingTick(c);
    ClientTicks(sys, e);
    assert T.Tick(c).1[0] == Msg(3, 3, sys.server.ttlMax, c.addr.ip, c.addr.mask);
    TickRecords(sys.server, e);
    RecordTick(sys.server.ttlMax, RecordOf(sys.server.clients, e));
    StepKeepsInv(config, sys, Step.Tick);
  }

  lemma ExtensionGranted(config: seq<Node>, sys: Sys, e: Endpoint, a: Node) returns (w: Sys)
    requires Inv(config, sys) && sys.up && Live(sys, e) && sys.clients[e].stat == C.WaitExtAck
    requires Packet(e, Msg(3, 3, sys.server.ttlMax, a.ip, a.mask)) in sys.toServer
    requires var found := RecordOf(sys.server.clients, e);
             found.Has? && found.r.id == e && found.r.stat == S.InUse && found.r.addr == a
    ensures RunsTo(sys, Renewal(e, a, sys.server.ttlMax)[1..], w) && Renewed(config, w, e, a)
    ensures w.server.ttlMax == sys.server.ttlMax
  {
    var ttlMax := sys.server.ttlMax;
    var request, ack := Msg(3, 3, ttlMax, a.ip, a.mask), Msg(4, 0, ttlMax, a.ip, a.mask);
    var i, r := S.IndexOf(sys.server.clients, e), RecordOf(sys.server.clients, e).r;
    A.RequestAnswered(sys.server, i, e, r, request);
    var v := Next(sys, ServerTakes(Packet(e, request)));
    StepKeepsInv(config, sys, ServerTakes(Packet(e, request)));
    ReceiveRecords(sys.server, e, request, e);
    var turn := S.Turn(sys.server, false, S.Datagram(e, request));
    assert turn.sent[0] == Packet(e, ack);
    assert Packet(e, ack) in v.toClient;
    Extend(sys, [], sys, ServerTakes(Packet(e, request)));
    w := Next(v, ClientTakes(Packet(e, ack)));
    T.AckTaken(v.clients[e], 0, ttlMax, a.ip, a.mask);
    StepKeepsInv(config, v, ClientTakes(Packet(e, ack)));
    Extend(sys, [] + [ServerTakes(Packet(e, request))], v, ClientTakes(Packet(e, ack)));
    assert Renewal(e, a, ttlMax)[1..] == [] + [ServerTakes(Packet(e, request))] + [ClientTakes(Packet(e, ack))];
  }

  /** From any state that meets the invariant, with the server up, a client at half of its time that
      is heard and hears the answer has its address for the whole lifetime again, and so has its
      record. */
  lemma RenewalGrants(config: seq<Node>, sys: Sys, e: Endpoint) returns (w: Sys)
    requires Inv(config, sys) && sys.up && AtHalf(sys, e)
    ensures var a, ttlMax := sys.clients[e].addr, sys.server.ttlMax;
            RunsTo(sys, Renewal(e, a, ttlMax), w) && Renewed(config, w, e, a) && w.server.ttlMax == ttlMax
  {
    var a, ttlMax := sys.clients[e].addr, sys.server.ttlMax;
    AsksAtHalf(config, sys, e);
    Extend(sys, [], sys, Step.Tick);
    w := ExtensionGranted(config, TickAll(sys), e, a);
    Chain(sys, [] + [Step.Tick], TickAll(sys), Renewal(e, a, ttlMax)[1..], w);
    assert Renewal(e, a, ttlMax) == [] + [Step.Tick] + Renewal(e, a, ttlMax)[1..];
  }

  // ---------------------------------------------------------------- any number of renewals

  /** The ticks up to half of the lifetime, and a renewal. */
  function Round(e: Endpoint, a: Node, ttlMax: nat): seq<Step>
    requires ttlMax >= 2
  {
    TickSteps(ttlMax - ttlMax / 2 - 1) + Renewal(e, a, ttlMax)
  }

  function Rounds(e: Endpoint, a: Node, ttlMax: nat, n: nat): seq<Step>
    requires ttlMax >= 2
  {
    if n == 0 then [] else Rounds(e, a, ttlMax, n - 1) + Round(e, a, ttlMax)
  }

  lemma OneRound(config: seq<Node>, sys: Sys, e: Endpoint, a: Node) returns (w: Sys)
    requires Renewed(config, sys, e, a) && sys.server.ttlMax >= 2
    ensures RunsTo(sys, Round(e, a, sys.server.ttlMax), w) && Renewed(config, w, e, a)
    ensures w.server.ttlMax == sys.server.ttlMax
  {
    var ttlMax := sys.server.ttlMax;
    var k := ttlMax - ttlMax / 2 - 1;
    var v := LetTick(config, sys, e, k);
    T.LeaseEnds(sys.clients[e], k);
    w := RenewalGrants(config, v, e);
    Chain(sys, TickSteps(k), v, Renewal(e, a, ttlMax), w);
  }

  /** A client whose requests and answers get through holds its address for any number of lifetimes:
      after every renewal it has it for the whole lifetime again. */
  lemma {:induction false} LeaseIsKept(config: seq<Node>, sys: Sys, e: Endpoint, a: Node, n: nat) returns (w: Sys)
    requires Renewed(config, sys, e, a) && sys.server.ttlMax >= 2
    ensures RunsTo(sys, Rounds(e, a, sys.server.ttlMax, n), w) && Renewed(config, w, e, a)
    ensures w.server.ttlMax == sys.server.ttlMax
  {
    if n == 0 {
      w := sys;
    } else {
      var v := LeaseIsKept(config, sys, e, a, n - 1);
      w := OneRound(config, v, e, a);
      Chain(sys, Rounds(e, a, sys.server.ttlMax, n - 1), v, Round(e, a, sys.server.ttlMax), w);
    }
  }
}
