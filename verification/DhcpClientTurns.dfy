/** What the client does, message by message and tick by tick, in the values that go over the wire. */
module DhcpClientTurns {
  import opened DhcpMessages
  import opened DhcpClient

  /** The client awaits an offer, or the answer to a request. */
  predicate AwaitsOffer(c: Client) { c.stat == WaitOffer1 || c.stat == WaitOffer2 }
  predicate AwaitsAck(c: Client) { c.stat == WaitAck1 || c.stat == WaitAck2 || c.stat == WaitExtAck }

  /** The client as it ends. */
  function Ended(c: Client): Client {
    c.(stat := Terminated, tout := 10, stop := true)
  }

  /** An offer with any code but 1 is taken while one is awaited: the address and the time are asked
      for as offered. At any other time only the two are noted. */
  lemma OfferTaken(c: Client, code: nat, ttl: nat, ip: nat, mask: nat)
    requires code != 1
    ensures var noted := c.(ttlcounter := ttl, addr := Node(ip, mask));
            Turn(c, false, Message(Msg(2, code, ttl, ip, mask))) ==
              if AwaitsOffer(c) then (noted.(stat := WaitAck1, tout := 10), [Msg(3, 2, ttl, ip, mask)])
              else (noted, [])
  {
  }

  /** A refused offer ends the client while an offer is awaited, and stops it at any other time. */
  lemma OfferRefused(c: Client, ttl: nat, ip: nat, mask: nat)
    ensures Turn(c, false, Message(Msg(2, 1, ttl, ip, mask))) ==
              (if AwaitsOffer(c) then Ended(c) else c.(stop := true), [])
  {
  }

  /** An ACK with any code but 4 starts or renews the lease while one is awaited, for the whole of its
      time. At any other time only address and time are noted. */
  lemma AckTaken(c: Client, code: nat, ttl: nat, ip: nat, mask: nat)
    requires code != 4
    ensures var noted := c.(ttlcounter := ttl, addr := Node(ip, mask));
            Turn(c, false, Message(Msg(4, code, ttl, ip, mask))) ==
              (if AwaitsAck(c) then noted.(stat := InUse, ttl := ttl, tout := 10) else noted, [])
  {
  }

  lemma AckRefused(c: Client, ttl: nat, ip: nat, mask: nat)
    ensures Turn(c, false, Message(Msg(4, 4, ttl, ip, mask))) == (if AwaitsAck(c) then Ended(c) else c, [])
  {
  }

  /** What only clients send is ignored. */
  lemma OthersIgnored(c: Client, msg: Msg)
    requires msg.kind != 2 && msg.kind != 4
    ensures Turn(c, false, Message(msg)) == (c, [])
  {
  }

  /** A datagram of the wrong length ends the client while it awaits anything. */
  lemma StrayEnds(c: Client)
    ensures Turn(c, false, WrongLength) == (if AwaitsOffer(c) || AwaitsAck(c) then Ended(c) else c, [])
  {
  }

  /** Hung up, a client that has an address gives it back; interrupted, it stops and keeps silent. */
  lemma SignalsEnd(c: Client)
    ensures Turn(c, false, Hangup) ==
              if c.stat == InUse || c.stat == WaitExtAck then (Ended(c), [Msg(5, 0, 0, c.addr.ip, 0)]) else (c, [])
    ensures Turn(c, false, Interrupt) == (c.(stop := true), [])
  {
  }

  // ---------------------------------------------------------------- ticks

  /** What a tick with which nothing else comes does to a client that is not using an address. (A wait
      would not run out while a time to use it ran between its half and its end.) */
  lemma WaitingTick(c: Client)
    requires AwaitsOffer(c) || c.stat == WaitAck1 || c.stat == WaitAck2
    ensures Turn(c, true, Nothing) ==
              if c.tout > 1 || 0 < c.ttl <= c.ttlcounter / 2 then (c.(tout := c.tout - 1), [])
              else match c.stat
                   case WaitOffer1 => (c.(stat := WaitOffer2, tout := 10), [Msg(1, 0, 0, 0, 0)])
                   case WaitAck1 =>
                     (c.(stat := WaitAck2, tout := 10), [Msg(3, 2, c.ttlcounter, c.addr.ip, c.addr.mask)])
                   case _ => (Ended(c), [])
  {
  }

  /** And to one that is: it asks for an extension with the tick that leaves it half of its time, and
      ends with the one that leaves it nothing, no wait having run out. */
  lemma HoldingTick(c: Client)
    requires c.stat == InUse || c.stat == WaitExtAck
    ensures var d := c.(ttl := c.ttl - 1);
            Turn(c, true, Nothing) ==
              if d.ttl <= 0 then (if c.tout > 0 then Ended(d) else d, [])
              else if d.ttl <= c.ttlcounter / 2 && c.stat == InUse then
                (d.(stat := WaitExtAck, tout := 10), [Msg(3, 3, c.ttlcounter, c.addr.ip, c.addr.mask)])
              else (d, [])
  {
  }

  lemma EndedTick(c: Client)
    requires c.stat == Terminated
    ensures Turn(c, true, Nothing) == (c, [])
  {
  }

  /** The client after `n` ticks in which nothing comes. */
  function Alone(c: Client, n: nat): Client {
    if n == 0 then c else Tick(Alone(c, n - 1)).0
  }

  /** A client that has ended or was stopped takes no further turn. */
  function Tick(c: Client): (Client, seq<Msg>) {
    if c.stop then (c, []) else Turn(c, true, Nothing)
  }

  /** Unanswered, a client sends its message once more, with the tenth tick, and ends with the
      twentieth. */
  lemma {:induction false} UnansweredEnds(c: Client, n: nat)
    requires (c.stat == WaitOffer1 || c.stat == WaitAck1) && c.tout == 10 && c.ttl <= 0 && !c.stop && n <= 20
    ensures var again := if c.stat == WaitOffer1 then WaitOffer2 else WaitAck2;
            Alone(c, n) == if n < 10 then c.(tout := 10 - n)
                           else if n < 20 then c.(stat := again, tout := 20 - n)
                           else Ended(c)
    ensures n < 20 ==>
              Tick(Alone(c, n)).1 ==
                if n == 9 then [if c.stat == WaitOffer1 then Msg(1, 0, 0, 0, 0)
                                else Msg(3, 2, c.ttlcounter, c.addr.ip, c.addr.mask)]
                else []
  {
    if n == 0 {
      WaitingTick(c);
    } else {
      UnansweredEnds(c, n - 1);
      WaitingTick(Alone(c, n - 1));
      if n < 20 { WaitingTick(Alone(c, n)); }
    }
  }

  /** A client using an address that heard nothing for `n` ticks. */
  function Holder(c: Client, n: nat): Client
    requires n <= c.ttl
  {
    if n == c.ttl then Ended(c.(ttl := 0))
    else c.(ttl := c.ttl - n, stat := if n < c.ttl - c.ttl / 2 then InUse else WaitExtAck)
  }

  lemma LeaseTick(c: Client, n: nat)
    requires c.stat == InUse && c.ttl == c.ttlcounter && c.tout == 10 && !c.stop && 2 <= c.ttl && n <= c.ttl
    ensures n < c.ttl ==>
              Tick(Holder(c, n)) ==
                (Holder(c, n + 1),
                 if n + 1 == c.ttl - c.ttl / 2 then [Msg(3, 3, c.ttl, c.addr.ip, c.addr.mask)] else [])
  {
    if n < c.ttl { HoldingTick(Holder(c, n)); }
  }

  lemma {:induction false} HolderAlone(c: Client, n: nat)
    requires c.stat == InUse && c.ttl == c.ttlcounter && c.tout == 10 && !c.stop && 2 <= c.ttl && n <= c.ttl
    ensures Alone(c, n) == Holder(c, n)
  {
    if n == 0 {
    } else {
      HolderAlone(c, n - 1);
      LeaseTick(c, n - 1);
    }
  }

  /** A client using an address, if nothing comes for `n` ticks: it asks for an extension once, when
      half of its time has passed, and ends when all of it has. */
  lemma LeaseEnds(c: Client, n: nat)
    requires c.stat == InUse && c.ttl == c.ttlcounter && c.tout == 10 && !c.stop && 2 <= c.ttl && n <= c.ttl
    ensures Alone(c, n) == Holder(c, n)
    ensures n < c.ttl ==>
              Tick(Alone(c, n)).1 ==
                if n + 1 == c.ttl - c.ttl / 2 then [Msg(3, 3, c.ttl, c.addr.ip, c.addr.mask)] else []
  {
    HolderAlone(c, n);
    LeaseTick(c, n);
  }

  /** A client that nobody answers sends its DISCOVER twice in all, ten ticks apart, and stops with the
      twentieth tick. */
  lemma NobodyAnswers(n: nat)
    requires n <= 20
    ensures Begin() == Client(WaitOffer1, 0, 10, 0, Node(0, 0), false)
    ensures DiscoverMsg() == Msg(1, 0, 0, 0, 0)
    ensures Alone(Begin(), n).stop <==> n == 20
    ensures n < 20 ==> Tick(Alone(Begin(), n)).1 == if n == 9 then [Msg(1, 0, 0, 0, 0)] else []
  {
    UnansweredEnds(Begin(), n);
  }
}
