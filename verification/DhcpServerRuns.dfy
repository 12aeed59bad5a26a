/** What the lease server keeps over whole runs. */
module DhcpServerRuns {
  import opened DhcpMessages
  import opened DhcpServer
  import opened Seqs

  // ---------------------------------------------------------------- the invariant

  ghost predicate DistinctIds(cs: seq<Record>) {
    forall i, j :: 0 <= i < j < |cs| ==> cs[i].id != cs[j].id
  }

  /** No wait and no lease is longer than it may be, and no wait runs in `Init` and `InUse`. */
  ghost predicate Timed(ttlMax: nat, r: Record) {
    && r.tout <= MESSAGE_TIMEOUT
    && (r.stat == InUse ==> r.ttl <= ttlMax)
    && (r.stat == Init || r.stat == InUse ==> r.tout > 0)
  }

  ghost predicate AllTimed(ttlMax: nat, cs: seq<Record>) {
    forall i :: 0 <= i < |cs| ==> Timed(ttlMax, cs[i])
  }

  /** The pool and the addresses held by clients are together exactly the configured ones. */
  ghost predicate Conserves(config: seq<Node>, s: Server) {
    multiset(s.pool) + multiset(Addrs(s.clients)) == multiset(config)
  }

  ghost predicate Inv(config: seq<Node>, s: Server) {
    Conserves(config, s) && DistinctIds(s.clients) && AllTimed(s.ttlMax, s.clients)
  }

  /** What an outcome may do to a record: its client and its address never change. */
  ghost predicate Faithful(ttlMax: nat, r: Record, o: Outcome) {
    o.Keep? ==> o.r.id == r.id && o.r.addr == r.addr && (Timed(ttlMax, r) ==> Timed(ttlMax, o.r))
  }

  lemma RespondFaithful(ttlMax: nat, r: Record, msg: Msg)
    ensures Faithful(ttlMax, r, Respond(ttlMax, r, msg))
  {
  }

  lemma SweepFaithful(ttlMax: nat, sweep: Sweep, r: Record)
    ensures Faithful(ttlMax, r, SweepOutcome(ttlMax, sweep, r)) && !SweepOutcome(ttlMax, sweep, r).Undefined?
  {
  }

  lemma ApplyConserves(s: Server, i: nat, o: Outcome)
    requires i < |s.clients| && Faithful(s.ttlMax, s.clients[i], o) && !o.Undefined?
    ensures var s' := Apply(s, i, o).s;
            multiset(s'.pool) + multiset(Addrs(s'.clients)) == multiset(s.pool) + multiset(Addrs(s.clients))
  {
    if o.Keep? {
      assert Addrs(s.clients[i := o.r]) == Addrs(s.clients);
    } else {
      assert Addrs(Cut(s.clients, i)) == Cut(Addrs(s.clients), i);
      CutConserves(s.pool, Addrs(s.clients), i);
    }
  }

  lemma CutConserves(pool: seq<Node>, a: seq<Node>, i: nat)
    requires i < |a|
    ensures multiset(pool + [a[i]]) + multiset(Cut(a, i)) == multiset(pool) + multiset(a)
  {
    assert a == a[..i] + [a[i]] + a[i + 1..];
  }

  lemma ApplyKeepsInv(config: seq<Node>, s: Server, i: nat, o: Outcome)
    requires Inv(config, s) && i < |s.clients| && Faithful(s.ttlMax, s.clients[i], o) && !o.Undefined?
    ensures Inv(config, Apply(s, i, o).s)
  {
    ApplyConserves(s, i, o);
  }

  lemma CreateConserves(s: Server, e: Endpoint)
    requires s.pool != []
    ensures var s' := Create(s, e);
            multiset(s'.pool) + multiset(Addrs(s'.clients)) == multiset(s.pool) + multiset(Addrs(s.clients))
  {
    assert s.pool == [s.pool[0]] + s.pool[1..];
    assert Addrs(Create(s, e).clients) == [s.pool[0]] + Addrs(s.clients);
  }

  lemma CreateKeepsInv(config: seq<Node>, s: Server, e: Endpoint)
    requires Inv(config, s) && s.pool != [] && !Known(s.clients, e)
    ensures Inv(config, Create(s, e))
  {
    CreateConserves(s, e);
  }

  lemma CountDownKeepsInv(config: seq<Node>, s: Server)
    requires Inv(config, s)
    ensures Inv(config, s.(clients := CountDownAll(s.clients)))
  {
    assert Addrs(CountDownAll(s.clients)) == Addrs(s.clients);
  }

  ghost predicate FaithfulVerdicts(ttlMax: nat, vs: seq<Verdict>) {
    forall i :: 0 <= i < |vs| ==> Faithful(ttlMax, vs[i].r, vs[i].o) && !vs[i].o.Undefined?
  }

  ghost function Ids(cs: seq<Record>): set<Endpoint> {
    set i | 0 <= i < |cs| :: cs[i].id
  }

  ghost function Records(vs: seq<Verdict>): (cs: seq<Record>)
    ensures |cs| == |vs| && forall i :: 0 <= i < |vs| ==> cs[i] == vs[i].r
  {
    seq(|vs|, i requires 0 <= i < |vs| => vs[i].r)
  }

  lemma {:induction false} SweepConserves(ttlMax: nat, vs: seq<Verdict>)
    requires FaithfulVerdicts(ttlMax, vs)
    ensures multiset(Freed(vs)) + multiset(Addrs(Kept(vs))) == multiset(Addrs(Records(vs)))
  {
    if vs == [] {
    } else {
      var v, rest := vs[0], vs[1..];
      SweepConserves(ttlMax, rest);
      assert Addrs(Records(vs)) == [v.r.addr] + Addrs(Records(rest));
      AddrsJoin(KeptOf(v), Kept(rest));
      VerdictConserves(ttlMax, v);
      MultisetPairs(FreedOf(v), Freed(rest), Addrs(KeptOf(v)), Addrs(Kept(rest)));
    }
  }

  lemma AddrsJoin(a: seq<Record>, b: seq<Record>)
    ensures Addrs(a + b) == Addrs(a) + Addrs(b)
  {
  }

  lemma VerdictConserves(ttlMax: nat, v: Verdict)
    requires Faithful(ttlMax, v.r, v.o) && !v.o.Undefined?
    ensures multiset(FreedOf(v)) + multiset(Addrs(KeptOf(v))) == multiset([v.r.addr])
  {
  }

  lemma MultisetPairs(a: seq<Node>, b: seq<Node>, c: seq<Node>, d: seq<Node>)
    ensures multiset(a + b) + multiset(c + d) == (multiset(a) + multiset(c)) + (multiset(b) + multiset(d))
  {
  }

  lemma SweepKeepsTimes(ttlMax: nat, vs: seq<Verdict>)
    requires FaithfulVerdicts(ttlMax, vs)
    requires forall i :: 0 <= i < |vs| ==> Timed(ttlMax, vs[i].r)
    ensures forall i :: 0 <= i < |Kept(vs)| ==> Timed(ttlMax, Kept(vs)[i])
  {
    forall i | 0 <= i < |Kept(vs)| ensures Timed(ttlMax, Kept(vs)[i]) {
      var j := Origin(vs, i);
    }
  }

  lemma SweepKeepsIds(ttlMax: nat, vs: seq<Verdict>)
    requires FaithfulVerdicts(ttlMax, vs)
    ensures Ids(Kept(vs)) <= Ids(Records(vs))
  {
    forall i | 0 <= i < |Kept(vs)| ensures Kept(vs)[i].id in Ids(Records(vs)) {
      var j := Origin(vs, i);
      assert Records(vs)[j].id == Kept(vs)[i].id;
    }
  }

  lemma {:induction false} SweepKeepsDistinct(ttlMax: nat, vs: seq<Verdict>)
    requires FaithfulVerdicts(ttlMax, vs) && DistinctIds(Records(vs))
    ensures DistinctIds(Kept(vs))
  {
    if vs == [] {
    } else {
      var v, rest := vs[0], vs[1..];
      assert forall i :: 0 <= i < |rest| ==> Records(rest)[i] == Records(vs)[i + 1];
      SweepKeepsDistinct(ttlMax, rest);
      SweepKeepsIds(ttlMax, rest);
      forall i | 0 <= i < |Kept(rest)| ensures Kept(rest)[i].id != v.r.id {
        assert Kept(rest)[i].id in Ids(Records(rest));
        var j :| 0 <= j < |rest| && Records(rest)[j].id == Kept(rest)[i].id;
        assert Records(vs)[0].id != Records(vs)[j + 1].id;
      }
    }
  }

  /** The verdict a surviving record comes from. */
  lemma {:induction false} Origin(vs: seq<Verdict>, i: nat) returns (j: nat)
    requires i < |Kept(vs)|
    ensures j < |vs| && vs[j].o.Keep? && vs[j].o.r == Kept(vs)[i]
  {
    var k := |KeptOf(vs[0])|;
    if i < k {
      j := 0;
    } else {
      assert Kept(vs)[i] == Kept(vs[1..])[i - k];
      j := Origin(vs[1..], i - k);
      j := j + 1;
    }
  }

  lemma SweptKeepsInv(config: seq<Node>, s: Server, sweep: Sweep)
    requires Inv(config, s)
    ensures Inv(config, Swept(s, sweep))
  {
    var vs := SweepVerdicts(s, sweep);
    SweepConserves(s.ttlMax, vs);
    SweepKeepsTimes(s.ttlMax, vs);
    SweepKeepsDistinct(s.ttlMax, vs);
  }

  lemma SweepVerdicts(s: Server, sweep: Sweep) returns (vs: seq<Verdict>)
    ensures vs == Verdicts(s.ttlMax, sweep, s.clients)
    ensures FaithfulVerdicts(s.ttlMax, vs) && Records(vs) == s.clients
  {
    vs := Verdicts(s.ttlMax, sweep, s.clients);
    forall i | 0 <= i < |vs| ensures Faithful(s.ttlMax, vs[i].r, vs[i].o) && !vs[i].o.Undefined? {
      SweepFaithful(s.ttlMax, sweep, s.clients[i]);
    }
  }

  /** Every turn of the main loop keeps the invariant, whatever message it handles. */
  lemma TurnKeepsInv(config: seq<Node>, s: Server, alarm: bool, input: Input)
    requires Inv(config, s) && Turn(s, alarm, input).Next?
    ensures Inv(config, Turn(s, alarm, input).s)
  {
    CountDownKeepsInv(config, s);
    var s' := if alarm then s.(clients := CountDownAll(s.clients)) else s;
    match input
    case Nothing =>
      SweptKeepsInv(config, s', TtlSweep);
      SweptKeepsInv(config, Swept(s', TtlSweep), ToutSweep);
    case Datagram(e, msg) =>
      ReceiveKeepsInv(config, s', e, msg);
    case WrongLength =>
      StrayKeepsInv(config, s');
  }

  lemma StrayFaithful(ttlMax: nat, r: Record)
    ensures var o := Act(ttlMax, r, Table(r.stat, UnknownMsg));
            Faithful(ttlMax, r, o) && !o.Undefined? && (r.stat == Init ==> o == Keep(r, []))
  {
  }

  lemma StrayKeepsInv(config: seq<Node>, s: Server)
    requires Inv(config, s) && Stray(s).Next?
    ensures Inv(config, Stray(s).s)
  {
    if s.cur.ClientOf? {
      var i := IndexOf(s.clients, s.cur.e);
      StrayFaithful(s.ttlMax, s.clients[i]);
      ApplyKeepsInv(config, s, i, Act(s.ttlMax, s.clients[i], Table(s.clients[i].stat, UnknownMsg)));
    }
  }

  /** Every turn keeps the clients distinct, from any state in which they are. */
  lemma TurnKeepsDistinct(s: Server, alarm: bool, input: Input)
    requires DistinctIds(s.clients) && Turn(s, alarm, input).Next?
    ensures DistinctIds(Turn(s, alarm, input).s.clients)
  {
    var s' := if alarm then s.(clients := CountDownAll(s.clients)) else s;
    assert forall i :: 0 <= i < |s.clients| ==> s'.clients[i].id == s.clients[i].id;
    match input
    case Nothing => IdleKeepsDistinct(s');
    case Datagram(e, msg) => ReceiveKeepsDistinct(s', e, msg);
    case WrongLength => StrayKeepsDistinct(s');
  }

  lemma IdleKeepsDistinct(s: Server)
    requires DistinctIds(s.clients)
    ensures DistinctIds(Idle(s).clients)
  {
    SweptKeepsDistinct(s, TtlSweep);
    SweptKeepsDistinct(Swept(s, TtlSweep), ToutSweep);
  }

  lemma StrayKeepsDistinct(s: Server)
    requires DistinctIds(s.clients) && Stray(s).Next?
    ensures DistinctIds(Stray(s).s.clients)
  {
    if s.cur.ClientOf? {
      var i := IndexOf(s.clients, s.cur.e);
      StrayFaithful(s.ttlMax, s.clients[i]);
      ApplyKeepsDistinct(s, i, Act(s.ttlMax, s.clients[i], Table(s.clients[i].stat, UnknownMsg)));
    }
  }

  lemma ApplyKeepsDistinct(s: Server, i: nat, o: Outcome)
    requires DistinctIds(s.clients) && i < |s.clients| && Faithful(s.ttlMax, s.clients[i], o) && !o.Undefined?
    ensures DistinctIds(Apply(s, i, o).s.clients)
  {
  }

  lemma ReceiveKeepsDistinct(s: Server, e: Endpoint, msg: Msg)
    requires DistinctIds(s.clients) && Receive(s, e, msg).Next?
    ensures DistinctIds(Receive(s, e, msg).s.clients)
  {
    var u := s.(cur := Reached(s, e, msg));
    var i := IndexOf(u.clients, e);
    if i < |u.clients| {
      RespondFaithful(u.ttlMax, u.clients[i], msg);
      ApplyKeepsDistinct(u, i, Respond(u.ttlMax, u.clients[i], msg));
    } else if msg.kind == TYPE_DISCOVER && u.pool != [] {
      var w := Create(u, e);
      RespondFaithful(w.ttlMax, w.clients[0], msg);
      ApplyKeepsDistinct(w, 0, Respond(w.ttlMax, w.clients[0], msg));
    }
  }

  lemma SweptKeepsDistinct(s: Server, sweep: Sweep)
    requires DistinctIds(s.clients)
    ensures DistinctIds(Swept(s, sweep).clients)
  {
    var vs := SweepVerdicts(s, sweep);
    SweepKeepsDistinct(s.ttlMax, vs);
  }

  lemma ReceiveKeepsInv(config: seq<Node>, s: Server, e: Endpoint, msg: Msg)
    requires Inv(config, s) && Receive(s, e, msg).Next?
    ensures Inv(config, Receive(s, e, msg).s)
  {
    var u := s.(cur := Reached(s, e, msg));
    var i := IndexOf(u.clients, e);
    if i < |u.clients| {
      RespondFaithful(u.ttlMax, u.clients[i], msg);
      ApplyKeepsInv(config, u, i, Respond(u.ttlMax, u.clients[i], msg));
    } else if msg.kind == TYPE_DISCOVER && u.pool != [] {
      CreateKeepsInv(config, u, e);
      var s' := Create(u, e);
      RespondFaithful(u.ttlMax, s'.clients[0], msg);
      ApplyKeepsInv(config, s', 0, Respond(u.ttlMax, s'.clients[0], msg));
    }
  }

  lemma FatalCrashes(s: Server, e: Endpoint, msg: Msg)
    ensures Receive(s, e, msg) == Crash <==> Fatal(s.clients, e, msg)
  {
  }

  lemma DanglingCrashes(s: Server)
    ensures Stray(s) == Crash <==> Dangling(s)
  {
    if s.cur.ClientOf? && Known(s.clients, s.cur.e) {
      StrayFaithful(s.ttlMax, s.clients[IndexOf(s.clients, s.cur.e)]);
    }
  }

  /** The turn cannot be carried out. */
  predicate Fails(s: Server, input: Input) {
    match input
    case Nothing => false
    case Datagram(e, msg) => Fatal(s.clients, e, msg)
    case WrongLength => Dangling(s)
  }

  /** Exactly the fatal messages, and datagrams of the wrong length while the pointer cannot be
      followed, crash the server. */
  lemma CrashCondition(s: Server, alarm: bool, input: Input)
    ensures Turn(s, alarm, input) == Crash <==> Fails(s, input)
  {
    var s' := if alarm then s.(clients := CountDownAll(s.clients)) else s;
    match input
    case Nothing =>
    case Datagram(e, msg) =>
      SameIndex(s.clients, e);
      FatalCrashes(s', e, msg);
    case WrongLength =>
      if s.cur.ClientOf? { SameIndex(s.clients, s.cur.e); }
      DanglingCrashes(s');
  }

  lemma {:induction false} SameIndex(cs: seq<Record>, e: Endpoint)
    ensures IndexOf(CountDownAll(cs), e) == IndexOf(cs, e)
  {
    if cs == [] {
    } else {
      assert CountDownAll(cs)[1..] == CountDownAll(cs[1..]);
      SameIndex(cs[1..], e);
    }
  }

  /** The failing inputs for datagrams of the wrong length: the first datagram the server hears, and
      one that follows a release. */
  lemma StrayStopsServer(ttlMax: nat, config: seq<Node>, s: Server, e: Endpoint, msg: Msg)
    requires DistinctIds(s.clients)
    requires var i := IndexOf(s.clients, e);
             i < |s.clients| && s.clients[i].stat == InUse && msg == ReleaseMsg(s.clients[i].addr)
    ensures Turn(Start(ttlMax, config), false, WrongLength) == Crash
    ensures var released := Turn(s, false, Datagram(e, msg));
            released.Next? && Turn(released.s, false, WrongLength) == Crash
  {
    var i := IndexOf(s.clients, e);
    FatalCrashes(s, e, msg);
    var cs := Cut(s.clients, i);
    forall k | 0 <= k < |cs| ensures cs[k].id != e {
      assert cs[k].id == s.clients[if k < i then k else k + 1].id;
    }
  }

  // ---------------------------------------------------------------- runs

  datatype TurnInput = TurnInput(alarm: bool, input: Input)

  function Start(ttlMax: nat, config: seq<Node>): Server {
    Server(ttlMax, config, [], Wild)
  }

  function OneTurn(before: Result, t: TurnInput): Result {
    if before.Crash? then Crash else Turn(before.s, t.alarm, t.input)
  }

  /** The state after the given turns, unless one of them has no defined outcome. */
  function Run(s: Server, turns: seq<TurnInput>): Result {
    Fold(OneTurn, Next(s, []), turns)
  }

  lemma StartInv(ttlMax: nat, config: seq<Node>)
    ensures Inv(config, Start(ttlMax, config))
  {
  }

  ghost predicate RunInv(ttlMax: nat, config: seq<Node>, r: Result) {
    r.Next? ==> Inv(config, r.s) && r.s.ttlMax == ttlMax
  }

  lemma RunKeepsInv(ttlMax: nat, config: seq<Node>, s: Server, turns: seq<TurnInput>)
    requires Inv(config, s) && s.ttlMax == ttlMax
    ensures RunInv(ttlMax, config, Run(s, turns))
  {
    forall r, t | RunInv(ttlMax, config, r) ensures RunInv(ttlMax, config, OneTurn(r, t)) {
      if r.Next? && OneTurn(r, t).Next? {
        TurnKeepsInv(config, r.s, t.alarm, t.input);
      }
    }
    FoldKeeps(OneTurn, r => RunInv(ttlMax, config, r), Next(s, []), turns);
  }

  /** Over every run the pool and the clients' addresses stay a permutation of the configuration,
      no two records share a client, and shutting down brings every address back. */
  lemma RunConserves(ttlMax: nat, config: seq<Node>, turns: seq<TurnInput>)
    requires Run(Start(ttlMax, config), turns).Next?
    ensures var s := Run(Start(ttlMax, config), turns).s;
            Inv(config, s) && s.ttlMax == ttlMax && multiset(Shutdown(s).pool) == multiset(config)
  {
    StartInv(ttlMax, config);
    RunKeepsInv(ttlMax, config, Start(ttlMax, config), turns);
  }

  // ---------------------------------------------------------------- first in, first out

  /** The addresses of the clients in `cs` that are not in `others`, in list order. */
  function AddrsOfNew(cs: seq<Record>, others: seq<Record>): seq<Node> {
    if cs == [] then [] else
      (if Known(others, cs[0].id) then [] else [cs[0].addr]) + AddrsOfNew(cs[1..], others)
  }

  /** The addresses of the clients that one turn drops. A message can drop only its sender, and a
      datagram of the wrong length only the sender of the last message; the timeout sweeps drop
      clients in list order, those whose lease ran out before the others. */
  function Departed(s: Server, alarm: bool, input: Input): seq<Node> {
    var s' := if alarm then s.(clients := CountDownAll(s.clients)) else s;
    match input
    case Nothing =>
      Freed(Verdicts(s.ttlMax, TtlSweep, s'.clients))
      + Freed(Verdicts(s.ttlMax, ToutSweep, Swept(s', TtlSweep).clients))
    case Datagram(e, msg) =>
      var i := IndexOf(s'.clients, e);
      if i < |s'.clients| && Respond(s.ttlMax, s'.clients[i], msg).Drop? then [s'.clients[i].addr] else []
    case WrongLength =>
      var i := if s'.cur.ClientOf? then IndexOf(s'.clients, s'.cur.e) else |s'.clients|;
      if i < |s'.clients| && s'.clients[i].stat != Init then [s'.clients[i].addr] else []
  }

  /** From `s` to `s'` the addresses of new clients are taken from the front of the pool, and those
      in `back` are put at its end. */
  ghost predicate QueueStep(s: Server, s': Server, back: seq<Node>) {
    var handed := AddrsOfNew(s'.clients, s.clients);
    |handed| <= |s.pool| && handed == s.pool[..|handed|] && s'.pool == s.pool[|handed|..] + back
  }

  lemma {:induction false} NoneNew(cs: seq<Record>, others: seq<Record>)
    requires forall i :: 0 <= i < |cs| ==> Known(others, cs[i].id)
    ensures AddrsOfNew(cs, others) == []
  {
    if cs == [] {
    } else {
      NoneNew(cs[1..], others);
    }
  }

  lemma KnownIffId(cs: seq<Record>, e: Endpoint)
    ensures Known(cs, e) <==> e in Ids(cs)
  {
  }

  lemma SubsetNotNew(cs: seq<Record>, others: seq<Record>)
    requires Ids(cs) <= Ids(others)
    ensures AddrsOfNew(cs, others) == []
  {
    forall i | 0 <= i < |cs| ensures Known(others, cs[i].id) {
      assert cs[i].id in Ids(cs);
      KnownIffId(others, cs[i].id);
    }
    NoneNew(cs, others);
  }

  lemma ApplyIds(s: Server, i: nat, o: Outcome)
    requires i < |s.clients| && Faithful(s.ttlMax, s.clients[i], o) && !o.Undefined?
    ensures Ids(Apply(s, i, o).s.clients) <= Ids(s.clients)
  {
  }

  lemma TurnIsQueueStep(s: Server, alarm: bool, input: Input)
    requires Turn(s, alarm, input).Next?
    ensures QueueStep(s, Turn(s, alarm, input).s, Departed(s, alarm, input))
  {
    var s' := if alarm then s.(clients := CountDownAll(s.clients)) else s;
    assert Ids(s'.clients) == Ids(s.clients) by {
      assert forall i :: 0 <= i < |s.clients| ==> s'.clients[i].id == s.clients[i].id;
    }
    match input
    case Nothing => IdleIsQueueStep(s, s', alarm);
    case Datagram(e, msg) => ReceiveIsQueueStep(s, s', alarm, e, msg);
    case WrongLength => StrayIsQueueStep(s, s', alarm);
  }

  lemma IdleIsQueueStep(s: Server, s': Server, alarm: bool)
    requires s' == (if alarm then s.(clients := CountDownAll(s.clients)) else s) && Ids(s'.clients) == Ids(s.clients)
    ensures QueueStep(s, Idle(s'), Departed(s, alarm, Nothing))
  {
    SweepIds(s', TtlSweep);
    SweepIds(Swept(s', TtlSweep), ToutSweep);
    SubsetNotNew(Idle(s').clients, s.clients);
    Associate(s.pool, Freed(Verdicts(s.ttlMax, TtlSweep, s'.clients)),
              Freed(Verdicts(s.ttlMax, ToutSweep, Swept(s', TtlSweep).clients)));
  }

  lemma StrayIsQueueStep(s: Server, s': Server, alarm: bool)
    requires s' == (if alarm then s.(clients := CountDownAll(s.clients)) else s) && Ids(s'.clients) == Ids(s.clients)
    requires Stray(s').Next?
    ensures QueueStep(s, Stray(s').s, Departed(s, alarm, WrongLength))
  {
    if s'.cur.ClientOf? {
      var i := IndexOf(s'.clients, s'.cur.e);
      StrayFaithful(s'.ttlMax, s'.clients[i]);
      ApplyIds(s', i, Act(s'.ttlMax, s'.clients[i], Table(s'.clients[i].stat, UnknownMsg)));
    }
    SubsetNotNew(Stray(s').s.clients, s.clients);
  }

  lemma ReceiveIsQueueStep(s: Server, s': Server, alarm: bool, e: Endpoint, msg: Msg)
    requires s' == (if alarm then s.(clients := CountDownAll(s.clients)) else s) && Ids(s'.clients) == Ids(s.clients)
    requires Receive(s', e, msg).Next?
    ensures QueueStep(s, Receive(s', e, msg).s, Departed(s, alarm, Datagram(e, msg)))
  {
    KnownIffId(s.clients, e);
    KnownIffId(s'.clients, e);
    if Known(s'.clients, e) {
      KnownIsQueueStep(s, s', alarm, e, msg);
    } else if msg.kind == TYPE_DISCOVER && s'.pool != [] {
      NewClient(s', s.clients, e, msg);
    } else {
      SubsetNotNew(Receive(s', e, msg).s.clients, s.clients);
    }
  }

  lemma KnownIsQueueStep(s: Server, s': Server, alarm: bool, e: Endpoint, msg: Msg)
    requires s' == (if alarm then s.(clients := CountDownAll(s.clients)) else s) && Ids(s'.clients) == Ids(s.clients)
    requires Known(s'.clients, e) && Receive(s', e, msg).Next?
    ensures QueueStep(s, Receive(s', e, msg).s, Departed(s, alarm, Datagram(e, msg)))
  {
    var u, i := s'.(cur := Reached(s', e, msg)), IndexOf(s'.clients, e);
    RespondFaithful(u.ttlMax, u.clients[i], msg);
    ApplyIds(u, i, Respond(u.ttlMax, u.clients[i], msg));
    SubsetNotNew(Receive(s', e, msg).s.clients, s.clients);
  }

  /** A client that is created gets the first address of the pool, and is the only new one. */
  lemma NewClient(s: Server, known: seq<Record>, e: Endpoint, msg: Msg)
    requires msg.kind == TYPE_DISCOVER && !Unnamed(msg) && s.pool != [] && !Known(s.clients, e)
    requires Ids(s.clients) == Ids(known) && !Known(known, e)
    ensures var res := Receive(s, e, msg);
            res.Next? && res.s.pool == s.pool[1..] && AddrsOfNew(res.s.clients, known) == [s.pool[0]]
  {
    var o := Respond(s.ttlMax, Create(s, e).clients[0], msg);
    var cs := Receive(s, e, msg).s.clients;
    assert o.Keep? && o.r.id == e && o.r.addr == s.pool[0];
    assert cs[1..] == s.clients && cs[0] == o.r;
    SubsetNotNew(s.clients, known);
  }

  lemma SweepIds(s: Server, sweep: Sweep)
    ensures Ids(Swept(s, sweep).clients) <= Ids(s.clients)
  {
    var vs := SweepVerdicts(s, sweep);
    SweepKeepsIds(s.ttlMax, vs);
  }

  /** The addresses handed out over a run: those of the clients each turn creates. */
  ghost function Handed(s: Server, turns: seq<TurnInput>): seq<Node>
    requires Run(s, turns).Next?
  {
    if turns == [] then [] else
      var init := turns[..|turns| - 1];
      Handed(s, init) + AddrsOfNew(Run(s, turns).s.clients, Run(s, init).s.clients)
  }

  /** The addresses returned over a run: those of the clients each turn drops. */
  ghost function Returned(s: Server, turns: seq<TurnInput>): seq<Node>
    requires Run(s, turns).Next?
  {
    if turns == [] then [] else
      var init, last := turns[..|turns| - 1], turns[|turns| - 1];
      Returned(s, init) + Departed(Run(s, init).s, last.alarm, last.input)
  }

  /** Addresses are handed out in the order in which they were returned: what was handed out,
      followed by what is in the pool, is what was there first, followed by what was returned. */
  lemma {:induction false} PoolIsFifo(s: Server, turns: seq<TurnInput>)
    requires Run(s, turns).Next?
    ensures Handed(s, turns) + Run(s, turns).s.pool == s.pool + Returned(s, turns)
  {
    if turns == [] {
    } else {
      var init, last := turns[..|turns| - 1], turns[|turns| - 1];
      PoolIsFifo(s, init);
      PoolTurn(Run(s, init).s, last, Handed(s, init), s.pool, Returned(s, init));
    }
  }

  lemma PoolTurn(before: Server, t: TurnInput, h: seq<Node>, first: seq<Node>, r: seq<Node>)
    requires Turn(before, t.alarm, t.input).Next? && h + before.pool == first + r
    ensures var after := Turn(before, t.alarm, t.input).s;
            (h + AddrsOfNew(after.clients, before.clients)) + after.pool
            == first + (r + Departed(before, t.alarm, t.input))
  {
    TurnIsQueueStep(before, t.alarm, t.input);
    var after := Turn(before, t.alarm, t.input).s;
    JoinTurn(h, AddrsOfNew(after.clients, before.clients), before.pool, Departed(before, t.alarm, t.input), first, r);
  }

  lemma JoinTurn(h: seq<Node>, handed: seq<Node>, pool: seq<Node>, back: seq<Node>, first: seq<Node>, r: seq<Node>)
    requires |handed| <= |pool| && handed == pool[..|handed|] && h + pool == first + r
    ensures (h + handed) + (pool[|handed|..] + back) == first + (r + back)
  {
    var rest := pool[|handed|..];
    assert pool == handed + rest;
    Associate(h + handed, rest, back);
    Associate(h, handed, rest);
    Associate(first, r, back);
  }

  // ---------------------------------------------------------------- reclamation

  /** Neither a lease nor a wait of this record has run out. */
  ghost predicate NothingDue(r: Record) {
    r.tout > 0 && (r.stat == InUse ==> r.ttl > 0)
  }

  /** After the idle branch nothing is due. */
  lemma IdleLeavesNothingDue(s: Server, i: nat)
    requires AllTimed(s.ttlMax, s.clients) && i < |Idle(s).clients|
    ensures NothingDue(Idle(s).clients[i])
  {
    var t := Swept(s, TtlSweep);
    var j := Origin(Verdicts(s.ttlMax, ToutSweep, t.clients), i);
    var k := Origin(Verdicts(s.ttlMax, TtlSweep, s.clients), j);
    SweptRecord(s.ttlMax, s.clients[k]);
  }

  lemma SweptRecord(ttlMax: nat, r: Record)
    requires Timed(ttlMax, r)
    ensures var o := SweepOutcome(ttlMax, TtlSweep, r);
            o.Keep? ==> var o' := SweepOutcome(ttlMax, ToutSweep, o.r); o'.Keep? ==> NothingDue(o'.r)
  {
  }

  /** Over every run: whenever a turn finds no message, nothing is due at its end. */
  lemma NothingDueOverRuns(ttlMax: nat, config: seq<Node>, turns: seq<TurnInput>, alarm: bool)
    requires Run(Start(ttlMax, config), turns).Next?
    ensures var s := Turn(Run(Start(ttlMax, config), turns).s, alarm, Nothing).s;
            forall i :: 0 <= i < |s.clients| ==> NothingDue(s.clients[i])
  {
    RunConserves(ttlMax, config, turns);
    var s := Run(Start(ttlMax, config), turns).s;
    CountDownKeepsInv(config, s);
    var s' := if alarm then s.(clients := CountDownAll(s.clients)) else s;
    forall i | 0 <= i < |Idle(s').clients| ensures NothingDue(Idle(s').clients[i]) {
      IdleLeavesNothingDue(s', i);
    }
  }

  function Max(a: int, b: int): int {
    if a < b then b else a
  }

  /** How many more ticks a record can survive without a message. */
  function Life(r: Record): int {
    match r.stat
    case Init => 0
    case InUse => Max(r.ttl, 1)
    case WaitReq1 => MESSAGE_TIMEOUT + Max(r.tout, 1)
    case WaitReq2 => Max(r.tout, 1)
  }

  ghost predicate LivesAtMost(cs: seq<Record>, k: int) {
    forall i :: 0 <= i < |cs| ==> Life(cs[i]) <= k
  }

  function Tick(s: Server): Server {
    Idle(s.(clients := CountDownAll(s.clients)))
  }

  /** `n` ticks without messages. */
  function Ticks(s: Server, n: nat): Server {
    Repeated(Tick, s, n)
  }

  lemma SweepLife(ttlMax: nat, r: Record)
    ensures var o := SweepOutcome(ttlMax, TtlSweep, CountDown(r));
            o.Keep? ==>
              var o' := SweepOutcome(ttlMax, ToutSweep, o.r);
              o'.Keep? && o'.r.stat != Init ==> 1 <= Life(o'.r) < Life(r)
    ensures var o := SweepOutcome(ttlMax, TtlSweep, CountDown(r));
            o.Keep? && r.stat == Init ==>
              var o' := SweepOutcome(ttlMax, ToutSweep, o.r);
              o'.Keep? ==> o'.r.stat == Init
  {
  }

  lemma TickShortensLives(s: Server, k: nat)
    requires LivesAtMost(s.clients, k)
    ensures LivesAtMost(Tick(s).clients, Max(k - 1, 0))
  {
    var u := s.(clients := CountDownAll(s.clients));
    var t := Swept(u, TtlSweep);
    forall i | 0 <= i < |Tick(s).clients| ensures Life(Tick(s).clients[i]) <= Max(k - 1, 0) {
      var j := Origin(Verdicts(s.ttlMax, ToutSweep, t.clients), i);
      var l := Origin(Verdicts(s.ttlMax, TtlSweep, u.clients), j);
      SweepLife(s.ttlMax, s.clients[l]);
    }
  }

  lemma {:induction false} TicksShortenLives(s: Server, k: nat, n: nat)
    requires LivesAtMost(s.clients, k)
    ensures LivesAtMost(Ticks(s, n).clients, Max(k - n, 0))
  {
    if n == 0 {
    } else {
      TicksShortenLives(s, k, n - 1);
      TickShortensLives(Ticks(s, n - 1), Max(k - (n - 1), 0));
    }
  }

  lemma TimedLives(s: Server)
    requires AllTimed(s.ttlMax, s.clients)
    ensures LivesAtMost(s.clients, Max(2 * MESSAGE_TIMEOUT, s.ttlMax))
  {
  }

  // ---------------------------------------------------------------- records no timer covers

  function OnlyInit(r: Record): seq<Record> {
    if r.stat == Init then [r] else []
  }

  /** The records in `Init`, in list order. */
  function InitRecords(cs: seq<Record>): seq<Record> {
    FlatMap(OnlyInit, cs)
  }

  lemma {:induction false} SweepKeepsInit(ttlMax: nat, sweep: Sweep, cs: seq<Record>)
    requires AllTimed(ttlMax, cs)
    ensures InitRecords(Kept(Verdicts(ttlMax, sweep, cs))) == InitRecords(cs)
  {
    if cs == [] {
    } else {
      var vs := Verdicts(ttlMax, sweep, cs);
      assert vs[1..] == Verdicts(ttlMax, sweep, cs[1..]);
      SweepKeepsInit(ttlMax, sweep, cs[1..]);
      FlatMapSplits(OnlyInit, KeptOf(vs[0]), Kept(vs[1..]));
      OneSwept(ttlMax, sweep, cs[0]);
    }
  }

  lemma OneSwept(ttlMax: nat, sweep: Sweep, r: Record)
    requires Timed(ttlMax, r)
    ensures InitRecords(KeptOf(Verdict(r, SweepOutcome(ttlMax, sweep, r)))) == OnlyInit(r)
  {
    var kept := KeptOf(Verdict(r, SweepOutcome(ttlMax, sweep, r)));
    if kept != [] {
      assert kept == [kept[0]];
      FlatMapOne(OnlyInit, kept[0]);
    }
  }

  lemma {:induction false} CountDownKeepsInit(cs: seq<Record>)
    ensures InitRecords(CountDownAll(cs)) == InitRecords(cs)
  {
    if cs == [] {
    } else {
      assert CountDownAll(cs)[1..] == CountDownAll(cs[1..]);
      CountDownKeepsInit(cs[1..]);
    }
  }

  /** A tick without messages neither drops nor changes a record in `Init`, and adds none. */
  lemma TickKeepsInit(config: seq<Node>, s: Server)
    requires Inv(config, s)
    ensures InitRecords(Tick(s).clients) == InitRecords(s.clients)
  {
    var u := s.(clients := CountDownAll(s.clients));
    CountDownKeepsInit(s.clients);
    CountDownKeepsInv(config, s);
    SweepKeepsInit(s.ttlMax, TtlSweep, u.clients);
    SweptKeepsInv(config, u, TtlSweep);
    SweepKeepsInit(s.ttlMax, ToutSweep, Swept(u, TtlSweep).clients);
  }

  /** What ticks keep: the invariant, and the records in `Init`. */
  ghost predicate TickInv(config: seq<Node>, init: seq<Record>, s: Server) {
    Inv(config, s) && InitRecords(s.clients) == init
  }

  lemma TicksKeepInv(config: seq<Node>, s: Server, n: nat)
    requires Inv(config, s)
    ensures TickInv(config, InitRecords(s.clients), Ticks(s, n))
  {
    var init := InitRecords(s.clients);
    forall t | TickInv(config, init, t) ensures TickInv(config, init, Tick(t)) {
      TurnKeepsInv(config, t, true, Nothing);
      TickKeepsInit(config, t);
    }
    RepeatedKeeps(Tick, t => TickInv(config, init, t), s, n);
  }

  lemma {:induction false} AllInit(cs: seq<Record>)
    ensures InitRecords(cs) == cs <==> forall i :: 0 <= i < |cs| ==> cs[i].stat == Init
    ensures InitRecords(cs) == [] <==> forall i :: 0 <= i < |cs| ==> cs[i].stat != Init
    ensures |InitRecords(cs)| <= |cs|
  {
    if cs == [] {
    } else {
      AllInit(cs[1..]);
      assert cs == [cs[0]] + cs[1..];
    }
  }

  /** The record of `e` is in `Init`. */
  predicate InInit(cs: seq<Record>, e: Endpoint) {
    Known(cs, e) && cs[IndexOf(cs, e)].stat == Init
  }

  lemma {:induction false} InitRecordsAre(cs: seq<Record>, r: Record)
    ensures r in InitRecords(cs) <==> r in cs && r.stat == Init
  {
    if cs == [] {
    } else {
      InitRecordsAre(cs[1..], r);
      assert cs == [cs[0]] + cs[1..];
    }
  }

  lemma InInitIff(cs: seq<Record>, e: Endpoint)
    requires DistinctIds(cs)
    ensures InInit(cs, e) <==> exists r :: r in InitRecords(cs) && r.id == e
  {
    if InInit(cs, e) {
      InitRecordsAre(cs, cs[IndexOf(cs, e)]);
    }
    if r :| r in InitRecords(cs) && r.id == e {
      InitRecordsAre(cs, r);
    }
  }

  predicate IsDiscover(msg: Msg) {
    msg == DiscoverMsg()
  }

  /** A DISCOVER whose other fields are not all zero. */
  predicate Malformed(msg: Msg) {
    msg.kind == TYPE_DISCOVER && msg != DiscoverMsg()
  }

  /** The turn leaves a new record of `e` in `Init`. */
  predicate Strands(s: Server, input: Input, e: Endpoint) {
    input.Datagram? && input.from == e && Malformed(input.msg) && !Known(s.clients, e) && s.pool != []
  }

  /** The turn takes a record of `e` out of `Init`. */
  predicate Rescues(input: Input, e: Endpoint) {
    input.Datagram? && input.from == e && IsDiscover(input.msg)
  }

  /** Only a malformed DISCOVER from an unknown endpoint puts a record into `Init`, and only a
      well-formed one from its own endpoint gets it out. */
  lemma InitTurn(config: seq<Node>, s: Server, alarm: bool, input: Input, e: Endpoint)
    requires Inv(config, s) && Turn(s, alarm, input).Next?
    ensures InInit(Turn(s, alarm, input).s.clients, e) <==>
              Strands(s, input, e) || (InInit(s.clients, e) && !Rescues(input, e))
  {
    var s' := if alarm then s.(clients := CountDownAll(s.clients)) else s;
    CountDownKeepsInv(config, s);
    SameIndex(s.clients, e);
    match input
    case Nothing => InitIdle(config, s', e);
    case Datagram(from, msg) =>
      SameIndex(s.clients, from);
      InitReceive(config, s', from, msg, e);
    case WrongLength => InitStray(config, s', e);
  }

  lemma InitIdle(config: seq<Node>, s: Server, e: Endpoint)
    requires Inv(config, s)
    ensures InInit(Idle(s).clients, e) <==> InInit(s.clients, e)
  {
    SweepKeepsInit(s.ttlMax, TtlSweep, s.clients);
    SweptKeepsInv(config, s, TtlSweep);
    SweepKeepsInit(s.ttlMax, ToutSweep, Swept(s, TtlSweep).clients);
    SweptKeepsInv(config, Swept(s, TtlSweep), ToutSweep);
    InInitIff(s.clients, e);
    InInitIff(Idle(s).clients, e);
  }

  /** Carrying out an outcome decides only whether that record is in `Init`. */
  lemma InitApply(s: Server, i: nat, o: Outcome, e: Endpoint)
    requires DistinctIds(s.clients) && i < |s.clients| && Faithful(s.ttlMax, s.clients[i], o) && !o.Undefined?
    ensures InInit(Apply(s, i, o).s.clients, e) <==>
              if e == s.clients[i].id then o.Keep? && o.r.stat == Init else InInit(s.clients, e)
  {
    var cs, cs' := s.clients, Apply(s, i, o).s.clients;
    var j := IndexOf(cs, e);
    if o.Keep? {
      KeptIndex(cs, i, o.r, e);
    } else {
      CutIndex(cs, i, e);
    }
  }

  lemma IndexIs(cs: seq<Record>, e: Endpoint, k: nat)
    requires k <= |cs| && (k < |cs| ==> cs[k].id == e) && forall j :: 0 <= j < k ==> cs[j].id != e
    ensures IndexOf(cs, e) == k
  {
  }

  lemma KeptIndex(cs: seq<Record>, i: nat, r: Record, e: Endpoint)
    requires DistinctIds(cs) && i < |cs| && r.id == cs[i].id
    ensures IndexOf(cs[i := r], e) == IndexOf(cs, e) && (e == cs[i].id <==> IndexOf(cs, e) == i)
  {
    IndexIs(cs[i := r], e, IndexOf(cs, e));
    if e == cs[i].id { IndexIs(cs, e, i); }
  }

  lemma CutIndex(cs: seq<Record>, i: nat, e: Endpoint)
    requires DistinctIds(cs) && i < |cs|
    ensures var j := IndexOf(cs, e);
            IndexOf(Cut(cs, i), e) == if j == i then |cs| - 1 else if j < i then j else j - 1
    ensures e == cs[i].id <==> IndexOf(cs, e) == i
  {
    var j, cs' := IndexOf(cs, e), Cut(cs, i);
    forall k | 0 <= k < |cs'| ensures cs'[k] == cs[if k < i then k else k + 1] {
    }
    IndexIs(cs', e, if j == i then |cs| - 1 else if j < i then j else j - 1);
    if e == cs[i].id { IndexIs(cs, e, i); }
  }

  lemma InitReceive(config: seq<Node>, s: Server, from: Endpoint, msg: Msg, e: Endpoint)
    requires Inv(config, s) && Receive(s, from, msg).Next?
    ensures InInit(Receive(s, from, msg).s.clients, e) <==>
              Strands(s, Datagram(from, msg), e) || (InInit(s.clients, e) && !Rescues(Datagram(from, msg), e))
  {
    var u := s.(cur := Reached(s, from, msg));
    var i := IndexOf(u.clients, from);
    if i < |u.clients| {
      InitServed(u, i, msg, e);
    } else if msg.kind == TYPE_DISCOVER && u.pool != [] {
      CreateKeepsInv(config, u, from);
      InitServed(Create(u, from), 0, msg, e);
      InitCreated(u, from, e);
    }
  }

  lemma InitServed(s: Server, i: nat, msg: Msg, e: Endpoint)
    requires DistinctIds(s.clients) && i < |s.clients|
    requires !Respond(s.ttlMax, s.clients[i], msg).Undefined?
    ensures var cs := s.clients;
            InInit(Apply(s, i, Respond(s.ttlMax, cs[i], msg)).s.clients, e) <==>
              if e == cs[i].id then cs[i].stat == Init && !IsDiscover(msg) else InInit(cs, e)
  {
    RespondFaithful(s.ttlMax, s.clients[i], msg);
    InitRespond(s.ttlMax, s.clients[i], msg);
    InitApply(s, i, Respond(s.ttlMax, s.clients[i], msg), e);
  }

  lemma InitCreated(s: Server, from: Endpoint, e: Endpoint)
    requires s.pool != []
    ensures InInit(Create(s, from).clients, e) <==> e == from || InInit(s.clients, e)
  {
  }

  lemma InitRespond(ttlMax: nat, r: Record, msg: Msg)
    ensures var o := Respond(ttlMax, r, msg);
            o.Keep? && o.r.stat == Init <==> r.stat == Init && !IsDiscover(msg)
  {
  }

  lemma InitStray(config: seq<Node>, s: Server, e: Endpoint)
    requires Inv(config, s) && Stray(s).Next?
    ensures InInit(Stray(s).s.clients, e) <==> InInit(s.clients, e)
  {
    if s.cur.ClientOf? {
      var i := IndexOf(s.clients, s.cur.e);
      var o := Act(s.ttlMax, s.clients[i], Table(s.clients[i].stat, UnknownMsg));
      StrayFaithful(s.ttlMax, s.clients[i]);
      InitApply(s, i, o, e);
    }
  }

  /** Turn `k` strands an address with `e`, and no later one rescues it. */
  ghost predicate StrandedBy(s: Server, turns: seq<TurnInput>, e: Endpoint, k: nat) {
    && k < |turns| && Run(s, turns[..k]).Next? && Strands(Run(s, turns[..k]).s, turns[k].input, e)
    && forall j :: k < j < |turns| ==> !Rescues(turns[j].input, e)
  }

  ghost predicate Stranded(s: Server, turns: seq<TurnInput>, e: Endpoint) {
    exists k: nat :: StrandedBy(s, turns, e, k)
  }

  /** Over every run: after it the record of an endpoint is in `Init` if and only if a malformed
      DISCOVER came from that endpoint when it had no record and the pool was not empty, and no
      well-formed DISCOVER came from it since. */
  lemma {:induction false} InitOverRuns(ttlMax: nat, config: seq<Node>, turns: seq<TurnInput>, e: Endpoint)
    requires Run(Start(ttlMax, config), turns).Next?
    ensures InInit(Run(Start(ttlMax, config), turns).s.clients, e) <==> Stranded(Start(ttlMax, config), turns, e)
    decreases |turns|
  {
    var s0 := Start(ttlMax, config);
    if turns == [] {
    } else {
      var init, last := turns[..|turns| - 1], turns[|turns| - 1];
      InitOverRuns(ttlMax, config, init, e);
      RunConserves(ttlMax, config, init);
      InitTurn(config, Run(s0, init).s, last.alarm, last.input, e);
      StrandedLater(s0, turns, e);
    }
  }

  lemma StrandedLater(s: Server, turns: seq<TurnInput>, e: Endpoint)
    requires turns != [] && Run(s, turns[..|turns| - 1]).Next?
    ensures var init, last := turns[..|turns| - 1], turns[|turns| - 1];
            Stranded(s, turns, e) <==>
              Strands(Run(s, init).s, last.input, e) || (Stranded(s, init, e) && !Rescues(last.input, e))
  {
    var n := |turns| - 1;
    var init, last := turns[..n], turns[n];
    forall k: nat
      ensures StrandedBy(s, turns, e, k) <==>
                if k == n then Strands(Run(s, init).s, last.input, e)
                else StrandedBy(s, init, e, k) && !Rescues(last.input, e)
    {
      StrandedAt(s, turns, e, k);
    }
    if Strands(Run(s, init).s, last.input, e) {
      assert StrandedBy(s, turns, e, n);
    }
    assert !StrandedBy(s, init, e, n);
  }

  lemma StrandedAt(s: Server, turns: seq<TurnInput>, e: Endpoint, k: nat)
    requires turns != [] && Run(s, turns[..|turns| - 1]).Next?
    ensures var n := |turns| - 1;
            StrandedBy(s, turns, e, k) <==>
              if k == n then Strands(Run(s, turns[..n]).s, turns[n].input, e)
              else StrandedBy(s, turns[..n], e, k) && !Rescues(turns[n].input, e)
  {
    var n := |turns| - 1;
    if k < n {
      assert turns[..n][..k] == turns[..k];
      assert turns[..n][k] == turns[k];
      assert (forall j :: k < j < |turns| ==> !Rescues(turns[j].input, e))
        <==> (forall j :: k < j < n ==> !Rescues(turns[..n][j].input, e)) && !Rescues(turns[n].input, e);
    }
  }

  /** From any reachable state, once no message arrives for max(2 * MESSAGE_TIMEOUT, ttlMax)
      ticks, exactly the records that were in `Init` are left, unchanged and in order. So every
      address is back in the pool if and only if there was none, that is, if and only if the run
      stranded no address: no timer covers such a record. */
  lemma QuietServerReclaims(ttlMax: nat, config: seq<Node>, turns: seq<TurnInput>, n: nat)
    requires Run(Start(ttlMax, config), turns).Next?
    requires n >= Max(2 * MESSAGE_TIMEOUT, ttlMax)
    ensures var before := Run(Start(ttlMax, config), turns).s;
            var after := Ticks(before, n);
            && after.clients == InitRecords(before.clients)
            && multiset(after.pool) + multiset(Addrs(InitRecords(before.clients))) == multiset(config)
            && (multiset(after.pool) == multiset(config) <==>
                  forall i :: 0 <= i < |before.clients| ==> before.clients[i].stat != Init)
            && (multiset(after.pool) == multiset(config) <==>
                  forall e :: !Stranded(Start(ttlMax, config), turns, e))
  {
    RunConserves(ttlMax, config, turns);
    var s := Run(Start(ttlMax, config), turns).s;
    TimedLives(s);
    TicksShortenLives(s, Max(2 * MESSAGE_TIMEOUT, ttlMax), n);
    TicksKeepInv(config, s, n);
    var t := Ticks(s, n);
    OnlyInitLives(t.clients);
    AllInit(s.clients);
    PoolWhole(t.pool, Addrs(t.clients), config);
    InitByEndpoint(ttlMax, config, turns);
  }

  lemma InitByEndpoint(ttlMax: nat, config: seq<Node>, turns: seq<TurnInput>)
    requires Run(Start(ttlMax, config), turns).Next?
    ensures var cs := Run(Start(ttlMax, config), turns).s.clients;
            (forall i :: 0 <= i < |cs| ==> cs[i].stat != Init)
            <==> forall e :: !Stranded(Start(ttlMax, config), turns, e)
  {
    RunConserves(ttlMax, config, turns);
    var cs := Run(Start(ttlMax, config), turns).s.clients;
    forall e ensures InInit(cs, e) <==> Stranded(Start(ttlMax, config), turns, e) {
      InitOverRuns(ttlMax, config, turns, e);
    }
    forall i | 0 <= i < |cs| && cs[i].stat == Init ensures InInit(cs, cs[i].id) {
    }
  }

  lemma OnlyInitLives(cs: seq<Record>)
    requires LivesAtMost(cs, 0)
    ensures InitRecords(cs) == cs
  {
    AllInit(cs);
  }

  lemma PoolWhole(pool: seq<Node>, held: seq<Node>, config: seq<Node>)
    requires multiset(pool) + multiset(held) == multiset(config)
    ensures multiset(pool) == multiset(config) <==> held == []
  {
    if held != [] {
      assert held[0] in multiset(held);
    }
  }

  /** The failing input: one DISCOVER with a nonzero code takes an address away for good. */
  lemma MalformedDiscoverLeaks(ttlMax: nat, config: seq<Node>, e: Endpoint, n: nat)
    requires config != []
    ensures var run := Run(Start(ttlMax, config), [TurnInput(false, Datagram(e, Msg(TYPE_DISCOVER, 1, 0, 0, 0)))]);
            && run.Next?
            && Ticks(run.s, n) ==
                 Server(ttlMax, config[1..], [Record(e, Init, MESSAGE_TIMEOUT, 0, 0, config[0])], ClientOf(e))
  {
    var turns := [TurnInput(false, Datagram(e, Msg(TYPE_DISCOVER, 1, 0, 0, 0)))];
    var s := Server(ttlMax, config[1..], [Record(e, Init, MESSAGE_TIMEOUT, 0, 0, config[0])], ClientOf(e));
    FoldOne(OneTurn, Next(Start(ttlMax, config), []), turns[0]);
    assert Create(Start(ttlMax, config).(cur := ClientOf(e)), e) == s;
    assert s.clients[0 := s.clients[0]] == s.clients;
    LeakStays(s, n);
  }

  lemma LeakStays(s: Server, n: nat)
    requires |s.clients| == 1 && s.clients[0].stat == Init && s.clients[0].tout > 0
    ensures Ticks(s, n) == s
  {
    LeakTick(s);
    RepeatedKeeps(Tick, t => t == s, s, n);
  }

  lemma LeakTick(s: Server)
    requires |s.clients| == 1 && s.clients[0].stat == Init && s.clients[0].tout > 0
    ensures Tick(s) == s
  {
    assert CountDownAll(s.clients) == s.clients;
    LeakSwept(s, TtlSweep);
    LeakSwept(s, ToutSweep);
  }

  lemma LeakSwept(s: Server, sweep: Sweep)
    requires |s.clients| == 1 && s.clients[0].stat == Init && s.clients[0].tout > 0
    ensures Swept(s, sweep) == s
  {
    var vs := Verdicts(s.ttlMax, sweep, s.clients);
    assert vs == [vs[0]] && s.clients == [s.clients[0]];
    FlatMapOne(KeptOf, vs[0]);
    FlatMapOne(FreedOf, vs[0]);
    assert s.pool + [] == s.pool;
  }
}
