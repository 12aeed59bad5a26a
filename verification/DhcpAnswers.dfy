/** What the server answers, message by message and tick by tick, in the values that go over the
    wire: types 1 to 5 are DISCOVER, OFFER, REQUEST, ACK and RELEASE; codes 0 to 4 are OK, no
    address, allocation, extension and bad request. */
module DhcpAnswers {
  import opened DhcpMessages
  import opened DhcpServer
  import opened DhcpServerRuns
  import opened Seqs

  /** `r` is the record of `e`, at place `i`. */
  ghost predicate RecordAt(s: Server, i: nat, e: Endpoint, r: Record) {
    DistinctIds(s.clients) && i < |s.clients| && s.clients[i] == r && r.id == e
  }

  /** The server has put `r` in the place of record `i`, sent the messages, and gone on. */
  ghost predicate Answers(s: Server, i: nat, r: Record, msg: Msg, kept: Record, sent: seq<Packet>)
    requires i < |s.clients|
  {
    Receive(s, r.id, msg) == Next(Server(s.ttlMax, s.pool, s.clients[i := kept], ClientOf(r.id)), sent)
  }

  /** The server has dropped record `i`, whose address is now last in the pool. */
  ghost predicate Drops(s: Server, i: nat, r: Record, msg: Msg, sent: seq<Packet>)
    requires i < |s.clients|
  {
    Receive(s, r.id, msg) ==
      Next(Server(s.ttlMax, s.pool + [r.addr], s.clients[..i] + s.clients[i + 1..], ClientOf(r.id)), sent)
  }

  lemma AtIndex(s: Server, i: nat, e: Endpoint, r: Record)
    requires RecordAt(s, i, e, r)
    ensures IndexOf(s.clients, e) == i
  {
    IndexIs(s.clients, e, i);
  }

  // ---------------------------------------------------------------- messages of known clients

  /** A request for what the record stands for: an allocation while one is awaited, an extension of
      a lease in use. */
  predicate Expected(r: Record, msg: Msg) {
    msg.kind == 3 && if r.stat == InUse then msg.code == 3 else r.stat != Init && msg.code == 2
  }

  predicate Fits(ttlMax: nat, r: Record, msg: Msg) {
    msg.ttl <= ttlMax && msg.ip == r.addr.ip && msg.mask == r.addr.mask
  }

  /** An expected request that fits is granted for exactly the time asked for, and only such a
      request: the record is in use for that time and an ACK with that time goes out. One that does
      not fit is refused, and the record dropped. */
  lemma RequestAnswered(s: Server, i: nat, e: Endpoint, r: Record, msg: Msg)
    requires RecordAt(s, i, e, r) && Expected(r, msg)
    ensures if Fits(s.ttlMax, r, msg) then
              Answers(s, i, r, msg, Record(e, InUse, 10, msg.ttl, msg.ttl, r.addr),
                      [Packet(e, Msg(4, 0, msg.ttl, r.addr.ip, r.addr.mask))])
            else
              Drops(s, i, r, msg, [Packet(e, Msg(4, 4, 0, 0, 0))])
  {
    AtIndex(s, i, e, r);
    ToPeerOne(e, Msg(4, 0, msg.ttl, r.addr.ip, r.addr.mask));
    ToPeerOne(e, Msg(4, 4, 0, 0, 0));
  }

  lemma ToPeerOne(e: Endpoint, msg: Msg)
    ensures ToPeer(e, [msg]) == [Packet(e, msg)]
  {
    assert ToPeer(e, [msg]) == [Packet(e, [msg][0])] + ToPeer(e, [msg][1..]);
  }

  /** A well-formed DISCOVER is answered by an offer exactly if the record is still in `Init`. */
  lemma DiscoverAnswered(s: Server, i: nat, e: Endpoint, r: Record)
    requires RecordAt(s, i, e, r)
    ensures if r.stat == Init then
              Answers(s, i, r, Msg(1, 0, 0, 0, 0), Record(e, WaitReq1, 10, r.ttl, r.ttlcounter, r.addr),
                      [Packet(e, Msg(2, 0, s.ttlMax, r.addr.ip, r.addr.mask))])
            else
              Answers(s, i, r, Msg(1, 0, 0, 0, 0), r, [])
  {
    AtIndex(s, i, e, r);
    ToPeerOne(e, Msg(2, 0, s.ttlMax, r.addr.ip, r.addr.mask));
  }

  /** A release ends a lease in use without an answer; a wrong one has no defined outcome. Before the
      lease is in use, neither does anything. */
  lemma ReleaseAnswered(s: Server, i: nat, e: Endpoint, r: Record, msg: Msg)
    requires RecordAt(s, i, e, r) && msg.kind == 5 && msg.code <= 4
    ensures if r.stat != InUse then Answers(s, i, r, msg, r, [])
            else if msg == Msg(5, 0, 0, r.addr.ip, 0) then Drops(s, i, r, msg, [])
            else Receive(s, e, msg) == Crash
  {
    AtIndex(s, i, e, r);
  }

  /** A DISCOVER whose other fields are not all zero, or a request for neither an allocation nor an
      extension, drops the record, unless it is in `Init`. */
  lemma NonsenseAnswered(s: Server, i: nat, e: Endpoint, r: Record, msg: Msg)
    requires RecordAt(s, i, e, r) && msg.code <= 4
    requires (msg.kind == 1 && msg != Msg(1, 0, 0, 0, 0)) || (msg.kind == 3 && msg.code != 2 && msg.code != 3)
    ensures if r.stat == Init then Answers(s, i, r, msg, r, []) else Drops(s, i, r, msg, [])
  {
    AtIndex(s, i, e, r);
  }

  /** Of any other message the record only notes the time, if it is a request, and nothing is sent:
      a request at the wrong time, and what a server sends. */
  lemma OtherAnswered(s: Server, i: nat, e: Endpoint, r: Record, msg: Msg)
    requires RecordAt(s, i, e, r) && msg.code <= 4
    requires (msg.kind == 3 && (msg.code == 2 || msg.code == 3) && !Expected(r, msg)) || msg.kind in {0, 2, 4}
    ensures Answers(s, i, r, msg, if msg.kind == 3 then r.(ttlcounter := msg.ttl) else r, [])
  {
    AtIndex(s, i, e, r);
  }

  /** A message whose type or code is none of these has no defined outcome, whoever sent it. */
  lemma NamelessCrashes(s: Server, e: Endpoint, msg: Msg)
    requires msg.kind > 5 || msg.code > 4
    ensures Receive(s, e, msg) == Crash
  {
  }

  // ---------------------------------------------------------------- messages of unknown endpoints

  /** A DISCOVER from an unknown endpoint heads the list with a record that holds the first address.
      If it is well-formed the address is offered; if not, the record stays in `Init`. Without an
      address a refusal is sent. */
  lemma StrangerAnswered(s: Server, e: Endpoint, msg: Msg)
    requires !Known(s.clients, e) && msg.kind == 1 && msg.code <= 4
    ensures Receive(s, e, msg) ==
              if s.pool == [] then
                Next(Server(s.ttlMax, [], s.clients, Wild), [Packet(e, Msg(2, 1, 0, 0, 0))])
              else
                var a := s.pool[0];
                if msg == Msg(1, 0, 0, 0, 0) then
                  Next(Server(s.ttlMax, s.pool[1..], [Record(e, WaitReq1, 10, 0, 0, a)] + s.clients, ClientOf(e)),
                       [Packet(e, Msg(2, 0, s.ttlMax, a.ip, a.mask))])
                else
                  Next(Server(s.ttlMax, s.pool[1..], [Record(e, Init, 10, 0, 0, a)] + s.clients, ClientOf(e)), [])
  {
    if s.pool != [] {
      var a := s.pool[0];
      ToPeerOne(e, Msg(2, 0, s.ttlMax, a.ip, a.mask));
      HeadReplaced(Record(e, Init, 10, 0, 0, a), s.clients, Record(e, WaitReq1, 10, 0, 0, a));
      HeadReplaced(Record(e, Init, 10, 0, 0, a), s.clients, Record(e, Init, 10, 0, 0, a));
    }
  }

  lemma HeadReplaced(x: Record, cs: seq<Record>, y: Record)
    ensures ([x] + cs)[0 := y] == [y] + cs
  {
  }

  /** From an unknown endpoint, requests for a lease and releases have no defined outcome, and
      anything else that is not a DISCOVER is ignored. */
  lemma StrangerIgnored(s: Server, e: Endpoint, msg: Msg)
    requires !Known(s.clients, e) && msg.kind != 1 && msg.kind <= 5 && msg.code <= 4
    ensures Receive(s, e, msg) ==
              if msg.kind == 5 || (msg.kind == 3 && (msg.code == 2 || msg.code == 3)) then Crash
              else Next(Server(s.ttlMax, s.pool, s.clients, ListHead), [])
  {
  }

  /** A datagram of the wrong length ends whatever the last sender was waiting for or had, unless its
      record is still in `Init`. */
  lemma StrayAnswered(s: Server, i: nat, e: Endpoint, r: Record)
    requires RecordAt(s, i, e, r) && s.cur == ClientOf(e)
    ensures Stray(s) ==
              if r.stat == Init then Next(s, [])
              else Next(Server(s.ttlMax, s.pool + [r.addr], s.clients[..i] + s.clients[i + 1..], ClientOf(e)), [])
  {
    AtIndex(s, i, e, r);
    assert s.clients[i := r] == s.clients;
  }

  lemma StrayIgnored(s: Server)
    requires s.cur == ListHead
    ensures Stray(s) == Next(s, [])
  {
  }

  // ---------------------------------------------------------------- ticks

  /** A quiet turn of the main loop after the alarm. */
  function Quiet(s: Server): Result {
    Turn(s, true, Nothing)
  }

  /** What becomes of one record in a tick, and what is sent to its client. */
  datatype Fate = Stays(r: Record, sent: seq<Packet>) | Leaves

  function FateOf(ttlMax: nat, r: Record): Fate {
    match r.stat
    case Init => Stays(r, [])
    case InUse => if r.ttl > 1 then Stays(r.(ttl := r.ttl - 1), []) else Leaves
    case WaitReq1 =>
      if r.tout > 1 then Stays(r.(tout := r.tout - 1), [])
      else Stays(r.(stat := WaitReq2, tout := 10), [Packet(r.id, Msg(2, 0, ttlMax, r.addr.ip, r.addr.mask))])
    case WaitReq2 => if r.tout > 1 then Stays(r.(tout := r.tout - 1), []) else Leaves
  }

  function StayingOf(ttlMax: nat): Record -> seq<Record> {
    (r: Record) => var f := FateOf(ttlMax, r); if f.Stays? then [f.r] else []
  }

  function SentBy(ttlMax: nat): Record -> seq<Packet> {
    (r: Record) => var f := FateOf(ttlMax, r); if f.Stays? then f.sent else []
  }

  function LeasesOver(ttlMax: nat): Record -> seq<Node> {
    (r: Record) => if r.stat == InUse && FateOf(ttlMax, r).Leaves? then [r.addr] else []
  }

  function WaitsOver(ttlMax: nat): Record -> seq<Node> {
    (r: Record) => if r.stat != InUse && FateOf(ttlMax, r).Leaves? then [r.addr] else []
  }

  /** A tick without messages deals with each record by itself: leases and waits run down by one. A
      lease that runs out is gone. A wait that runs out is followed by a second offer and a second
      wait, and then is gone too. The addresses of leases come back first, then those of waits, each
      in list order. */
  lemma QuietTick(config: seq<Node>, s: Server)
    requires Inv(config, s)
    ensures Quiet(s) ==
              Next(Server(s.ttlMax,
                          s.pool + FlatMap(LeasesOver(s.ttlMax), s.clients) + FlatMap(WaitsOver(s.ttlMax), s.clients),
                          FlatMap(StayingOf(s.ttlMax), s.clients), s.cur),
                   FlatMap(SentBy(s.ttlMax), s.clients))
  {
    SweepsAre(s.ttlMax, s.clients);
    assert [] + FlatMap(SentBy(s.ttlMax), s.clients) == FlatMap(SentBy(s.ttlMax), s.clients);
  }

  function First(ttlMax: nat, cs: seq<Record>): seq<Verdict> {
    Verdicts(ttlMax, TtlSweep, CountDownAll(cs))
  }

  function Second(ttlMax: nat, cs: seq<Record>): seq<Verdict> {
    Verdicts(ttlMax, ToutSweep, Kept(First(ttlMax, cs)))
  }

  /** The two sweeps, as the fates of the single records. */
  ghost predicate FirstIs(ttlMax: nat, cs: seq<Record>) {
    Freed(First(ttlMax, cs)) == FlatMap(LeasesOver(ttlMax), cs) && Sent(First(ttlMax, cs)) == []
  }

  ghost predicate SecondIs(ttlMax: nat, cs: seq<Record>) {
    && Freed(Second(ttlMax, cs)) == FlatMap(WaitsOver(ttlMax), cs)
    && Sent(Second(ttlMax, cs)) == FlatMap(SentBy(ttlMax), cs)
    && Kept(Second(ttlMax, cs)) == FlatMap(StayingOf(ttlMax), cs)
  }

  lemma {:induction false} SweepsAre(ttlMax: nat, cs: seq<Record>)
    requires AllTimed(ttlMax, cs)
    ensures FirstIs(ttlMax, cs) && SecondIs(ttlMax, cs)
  {
    if cs == [] {
    } else {
      SweepsAre(ttlMax, cs[1..]);
      FirstOfOne(ttlMax, cs[0]);
      SecondOfOne(ttlMax, cs[0]);
      FirstJoins(ttlMax, cs[0], cs[1..]);
      SecondJoins(ttlMax, cs[0], cs[1..]);
      assert cs == [cs[0]] + cs[1..];
    }
  }

  /** The record after the countdown, and what the first sweep makes of it. */
  function FirstVerdict(ttlMax: nat, r: Record): Verdict {
    Verdict(CountDown(r), SweepOutcome(ttlMax, TtlSweep, CountDown(r)))
  }

  lemma FirstOfOne(ttlMax: nat, r: Record)
    requires Timed(ttlMax, r)
    ensures FirstIs(ttlMax, [r])
    ensures First(ttlMax, [r]) == [FirstVerdict(ttlMax, r)]
    ensures Kept(First(ttlMax, [r])) == if FateOf(ttlMax, r).Leaves? && r.stat == InUse then [] else [CountDown(r)]
  {
    var v := FirstVerdict(ttlMax, r);
    assert First(ttlMax, [r]) == [v];
    FlatMapOne(KeptOf, v);
    FlatMapOne(FreedOf, v);
    FlatMapOne(SentOf, v);
    FlatMapOne(LeasesOver(ttlMax), r);
  }

  lemma SecondOfOne(ttlMax: nat, r: Record)
    requires Timed(ttlMax, r)
    ensures SecondIs(ttlMax, [r])
  {
    FirstOfOne(ttlMax, r);
    FlatMapOne(WaitsOver(ttlMax), r);
    FlatMapOne(SentBy(ttlMax), r);
    FlatMapOne(StayingOf(ttlMax), r);
    if FateOf(ttlMax, r).Leaves? && r.stat == InUse {
      assert Second(ttlMax, [r]) == [];
    } else {
      var x := Verdict(CountDown(r), SweepOutcome(ttlMax, ToutSweep, CountDown(r)));
      assert Second(ttlMax, [r]) == [x];
      FlatMapOne(KeptOf, x);
      FlatMapOne(FreedOf, x);
      FlatMapOne(SentOf, x);
      SecondFate(ttlMax, r);
    }
  }

  lemma SecondFate(ttlMax: nat, r: Record)
    requires Timed(ttlMax, r) && !(FateOf(ttlMax, r).Leaves? && r.stat == InUse)
    ensures var x := Verdict(CountDown(r), SweepOutcome(ttlMax, ToutSweep, CountDown(r)));
            && KeptOf(x) == StayingOf(ttlMax)(r) && FreedOf(x) == WaitsOver(ttlMax)(r) && SentOf(x) == SentBy(ttlMax)(r)
  {
    ToPeerOne(r.id, Msg(2, 0, ttlMax, r.addr.ip, r.addr.mask));
  }

  lemma FirstJoins(ttlMax: nat, r: Record, rest: seq<Record>)
    requires FirstIs(ttlMax, [r]) && FirstIs(ttlMax, rest)
    ensures FirstIs(ttlMax, [r] + rest)
  {
    FirstSplits(ttlMax, r, rest);
    FlatMapSplits(FreedOf, First(ttlMax, [r]), First(ttlMax, rest));
    FlatMapSplits(SentOf, First(ttlMax, [r]), First(ttlMax, rest));
    FlatMapSplits(LeasesOver(ttlMax), [r], rest);
  }

  lemma FirstSplits(ttlMax: nat, r: Record, rest: seq<Record>)
    ensures First(ttlMax, [r] + rest) == First(ttlMax, [r]) + First(ttlMax, rest)
  {
  }

  lemma SecondSplits(ttlMax: nat, r: Record, rest: seq<Record>)
    ensures Second(ttlMax, [r] + rest) == Second(ttlMax, [r]) + Second(ttlMax, rest)
  {
    var a, b := First(ttlMax, [r]), First(ttlMax, rest);
    FirstSplits(ttlMax, r, rest);
    FlatMapSplits(KeptOf, a, b);
    VerdictsSplit(ttlMax, ToutSweep, Kept(a), Kept(b));
  }

  lemma VerdictsSplit(ttlMax: nat, sweep: Sweep, a: seq<Record>, b: seq<Record>)
    ensures Verdicts(ttlMax, sweep, a + b) == Verdicts(ttlMax, sweep, a) + Verdicts(ttlMax, sweep, b)
  {
  }

  lemma SecondJoins(ttlMax: nat, r: Record, rest: seq<Record>)
    requires SecondIs(ttlMax, [r]) && SecondIs(ttlMax, rest)
    ensures SecondIs(ttlMax, [r] + rest)
  {
    var c, d := Second(ttlMax, [r]), Second(ttlMax, rest);
    SecondSplits(ttlMax, r, rest);
    FlatMapSplits(KeptOf, c, d);
    FlatMapSplits(FreedOf, c, d);
    FlatMapSplits(SentOf, c, d);
    FlatMapSplits(WaitsOver(ttlMax), [r], rest);
    FlatMapSplits(SentBy(ttlMax), [r], rest);
    FlatMapSplits(StayingOf(ttlMax), [r], rest);
  }

  // ---------------------------------------------------------------- many ticks

  ghost predicate Gone(cs: seq<Record>, e: Endpoint) {
    forall i :: 0 <= i < |cs| ==> cs[i].id != e
  }

  /** The fate of the record of `e` shows in the list and in what was sent. */
  ghost predicate Shows(f: Fate, e: Endpoint, cs: seq<Record>, sent: seq<Packet>) {
    if f.Stays? then f.r in cs && forall p :: p in f.sent ==> p in sent else Gone(cs, e)
  }

  lemma FateShows(ttlMax: nat, cs: seq<Record>, r: Record)
    requires DistinctIds(cs) && r in cs
    ensures Shows(FateOf(ttlMax, r), r.id, FlatMap(StayingOf(ttlMax), cs), FlatMap(SentBy(ttlMax), cs))
  {
    var f, kept := FateOf(ttlMax, r), FlatMap(StayingOf(ttlMax), cs);
    if f.Stays? {
      FlatMapHas(StayingOf(ttlMax), cs, f.r);
      forall p | p in f.sent ensures p in FlatMap(SentBy(ttlMax), cs) {
        FlatMapHas(SentBy(ttlMax), cs, p);
      }
    } else {
      forall i | 0 <= i < |kept| ensures kept[i].id != r.id {
        FlatMapHas(StayingOf(ttlMax), cs, kept[i]);
        assert kept[i] in kept;
      }
    }
  }

  lemma OneTick(config: seq<Node>, s: Server, r: Record)
    requires Inv(config, s) && r in s.clients
    ensures Inv(config, Tick(s)) && Tick(s).ttlMax == s.ttlMax && Quiet(s).Next?
    ensures Shows(FateOf(s.ttlMax, r), r.id, Tick(s).clients, Quiet(s).sent)
  {
    TurnKeepsInv(config, s, true, Nothing);
    QuietTick(config, s);
    FateShows(s.ttlMax, s.clients, r);
    TickIsQuiet(s);
  }

  lemma TickIsQuiet(s: Server)
    ensures Quiet(s).Next? && Quiet(s).s == Tick(s)
  {
  }

  lemma NextTick(s: Server, n: nat)
    requires n > 0
    ensures Ticks(s, n) == Tick(Ticks(s, n - 1))
  {
  }

  /** After `n` ticks the record of `e` is `now`, or gone. */
  ghost predicate AfterTicks(config: seq<Node>, s: Server, n: nat, e: Endpoint, now: Fate) {
    && Inv(config, Ticks(s, n)) && Ticks(s, n).ttlMax == s.ttlMax
    && if now.Stays? then now.r in Ticks(s, n).clients else Gone(Ticks(s, n).clients, e)
  }

  lemma OneMoreTick(config: seq<Node>, s: Server, n: nat, r: Record, now: Fate)
    requires n > 0 && AfterTicks(config, s, n - 1, r.id, Stays(r, [])) && now == FateOf(s.ttlMax, r)
    ensures AfterTicks(config, s, n, r.id, now) && Quiet(Ticks(s, n - 1)).Next?
    ensures now.Stays? ==> forall p :: p in now.sent ==> p in Quiet(Ticks(s, n - 1)).sent
  {
    NextTick(s, n);
    OneTick(config, Ticks(s, n - 1), r);
  }

  lemma NotYetTicked(config: seq<Node>, s: Server, r: Record)
    requires Inv(config, s) && r in s.clients
    ensures AfterTicks(config, s, 0, r.id, Stays(r, []))
  {
  }

  /** A lease that no message came for, `n` ticks later. */
  function Expiring(r: Record, n: nat): Fate {
    if n < r.ttl then Stays(r.(ttl := r.ttl - n), []) else Leaves
  }

  lemma {:induction false} LeaseExpires(config: seq<Node>, s: Server, r: Record, n: nat)
    requires AfterTicks(config, s, 0, r.id, Stays(r, [])) && r.stat == InUse && n <= r.ttl && 0 < r.ttl
    ensures AfterTicks(config, s, n, r.id, Expiring(r, n))
  {
    if n == 0 {
      assert Expiring(r, 0) == Stays(r, []);
    } else {
      LeaseExpires(config, s, r, n - 1);
      ExpiringNext(s.ttlMax, r, n);
      OneMoreTick(config, s, n, Expiring(r, n - 1).r, Expiring(r, n));
    }
  }

  /** A lease no message comes for lasts exactly its time, and then its record is gone. */
  lemma LeaseRunsDown(config: seq<Node>, s: Server, r: Record, n: nat)
    requires Inv(config, s) && r in s.clients && r.stat == InUse && n <= r.ttl && 0 < r.ttl
    ensures AfterTicks(config, s, n, r.id, Expiring(r, n))
  {
    NotYetTicked(config, s, r);
    LeaseExpires(config, s, r, n);
  }

  lemma ExpiringNext(ttlMax: nat, r: Record, n: nat)
    requires r.stat == InUse && 0 < n <= r.ttl
    ensures var before := Expiring(r, n - 1);
            before.Stays? && before == Stays(before.r, []) && before.r.id == r.id
            && Expiring(r, n) == FateOf(ttlMax, before.r)
  {
  }

  /** A record whose offer nobody takes up, `n` ticks later. The offer is sent again with the tenth. */
  function Unanswered(ttlMax: nat, r: Record, n: nat): Fate {
    if n < 10 then Stays(r.(tout := 10 - n), [])
    else if n == 10 then
      Stays(r.(stat := WaitReq2, tout := 10), [Packet(r.id, Msg(2, 0, ttlMax, r.addr.ip, r.addr.mask))])
    else if n < 20 then Stays(r.(stat := WaitReq2, tout := 20 - n), [])
    else Leaves
  }

  /** An offer that is not taken up is repeated once, after ten ticks, and after ten more the record
      is gone. */
  lemma {:induction false} OfferRunsOut(config: seq<Node>, s: Server, r: Record, n: nat)
    requires Inv(config, s) && r in s.clients && r.stat == WaitReq1 && r.tout == 10 && n <= 20
    ensures AfterTicks(config, s, n, r.id, Unanswered(s.ttlMax, r, n))
    ensures n > 0 && Unanswered(s.ttlMax, r, n).Stays? ==>
              Quiet(Ticks(s, n - 1)).Next? &&
              forall p :: p in Unanswered(s.ttlMax, r, n).sent ==> p in Quiet(Ticks(s, n - 1)).sent
  {
    if n == 0 {
      NotYetTicked(config, s, r);
    } else {
      OfferRunsOut(config, s, r, n - 1);
      UnansweredNext(s.ttlMax, r, n);
      OneMoreTick(config, s, n, Unanswered(s.ttlMax, r, n - 1).r, Unanswered(s.ttlMax, r, n));
    }
  }

  lemma UnansweredNext(ttlMax: nat, r: Record, n: nat)
    requires r.stat == WaitReq1 && r.tout == 10 && 0 < n <= 20
    ensures var before := Unanswered(ttlMax, r, n - 1);
            before.Stays? && before.r.id == r.id && Unanswered(ttlMax, r, n) == FateOf(ttlMax, before.r)
  {
  }

  // ---------------------------------------------------------------- shutdown

  /** Stopped, the server puts the addresses of its clients behind those of the pool, front to back. */
  lemma ShutdownReturns(s: Server, k: nat)
    requires k < |s.clients|
    ensures var w := Shutdown(s);
            && w.clients == [] && |w.pool| == |s.pool| + |s.clients| && w.pool[..|s.pool|] == s.pool
            && w.pool[|s.pool| + k] == s.clients[k].addr
  {
  }
}
