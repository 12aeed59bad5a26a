/** The lease server program: an address pool, a list of client records, a transition table and
    two timeout sweeps that restart whenever they change the list. */
module DhcpDaemon {
  import opened DhcpMessages
  import opened DhcpServer
  import opened DhcpServerRuns
  import opened Rings
  import opened Seqs

  method AllocCells(config: seq<Node>) returns (cells: seq<Cell<Node>>)
    ensures |cells| == |config| && fresh(cells)
    ensures forall i :: 0 <= i < |config| ==> cells[i].item == config[i]
    ensures forall i, j :: 0 <= i < j < |config| ==> cells[i] != cells[j]
  {
    cells := [];
    for i := 0 to |config|
      invariant |cells| == i && fresh(cells)
      invariant forall j :: 0 <= j < i ==> cells[j].item == config[j]
      invariant forall j, k :: 0 <= j < k < i ==> cells[j] != cells[k]
    {
      var c := new Cell<Node>(config[i]);
      cells := cells + [c];
    }
  }

  // ---------------------------------------------------------------- facts about sweeps

  /** Nothing happens to this record. */
  predicate Quiet(v: Verdict) {
    v.o == Keep(v.r, [])
  }

  /** How many records the sweep will act on. */
  function Unsettled(vs: seq<Verdict>): nat {
    if vs == [] then 0 else (if Quiet(vs[0]) then 0 else 1) + Unsettled(vs[1..])
  }

  lemma {:induction false} UnsettledSplits(a: seq<Verdict>, b: seq<Verdict>)
    ensures Unsettled(a + b) == Unsettled(a) + Unsettled(b)
  {
    if a == [] {
      assert a + b == b;
    } else {
      assert (a + b)[1..] == a[1..] + b;
      UnsettledSplits(a[1..], b);
    }
  }

  lemma {:induction false} QuietSweep(vs: seq<Verdict>)
    requires forall j :: 0 <= j < |vs| ==> Quiet(vs[j])
    ensures |Kept(vs)| == |vs| && forall j :: 0 <= j < |vs| ==> Kept(vs)[j] == vs[j].r
    ensures Freed(vs) == [] && Sent(vs) == []
  {
    if vs == [] {
    } else {
      QuietSweep(vs[1..]);
    }
  }

  /** What a sweep acts on it settles: a record it keeps is quiet afterwards. */
  lemma ActedIsQuiet(ttlMax: nat, sweep: Sweep, r: Record)
    ensures var o := SweepOutcome(ttlMax, sweep, r);
            !o.Undefined? && (o.Keep? ==> o.r.id == r.id && SweepOutcome(ttlMax, sweep, o.r) == Keep(o.r, []))
  {
  }

  /** The list with its first `i` records counted down. */
  function CountedTo(cs: seq<Record>, i: nat): (r: seq<Record>)
    requires i <= |cs|
    ensures |r| == |cs|
    ensures forall j :: 0 <= j < |cs| ==> r[j] == if j < i then CountDown(cs[j]) else cs[j]
  {
    CountDownAll(cs[..i]) + cs[i..]
  }

  lemma CountedAll(cs: seq<Record>)
    ensures CountedTo(cs, |cs|) == CountDownAll(cs)
  {
  }

  lemma CountedOneMore(cs: seq<Record>, i: nat)
    requires i < |cs|
    ensures CountedTo(cs, i)[i] == cs[i] && CountedTo(cs, i)[i := CountDown(cs[i])] == CountedTo(cs, i + 1)
  {
  }

  /** The list after the outcome for record `i`. */
  function AfterAct(vs: seq<Verdict>, i: nat): seq<Verdict>
    requires i < |vs|
  {
    vs[..i] + Settled(vs[i]) + vs[i + 1..]
  }

  lemma VerdictsAfterAct(ttlMax: nat, sweep: Sweep, cs: seq<Record>, i: nat)
    requires i < |cs|
    ensures var o, vs := SweepOutcome(ttlMax, sweep, cs[i]), Verdicts(ttlMax, sweep, cs);
            && (o.Keep? ==> Verdicts(ttlMax, sweep, cs[i := o.r]) == AfterAct(vs, i))
            && (o.Drop? ==> Verdicts(ttlMax, sweep, Cut(cs, i)) == AfterAct(vs, i))
  {
    ActedIsQuiet(ttlMax, sweep, cs[i]);
  }

  /** Acting on the first record that needs it and settling it leaves the rest of the sweep's
      work unchanged. */
  lemma SweepStep(vs: seq<Verdict>, i: nat)
    requires i < |vs| && !Quiet(vs[i]) && !vs[i].o.Undefined?
    requires forall j :: 0 <= j < i ==> Quiet(vs[j])
    ensures Kept(vs) == Kept(AfterAct(vs, i))
    ensures Freed(vs) == FreedOf(vs[i]) + Freed(AfterAct(vs, i))
    ensures Sent(vs) == SentOf(vs[i]) + Sent(AfterAct(vs, i))
    ensures Unsettled(AfterAct(vs, i)) == Unsettled(vs) - 1
  {
    var a, x, b := vs[..i], vs[i], vs[i + 1..];
    assert vs == a + [x] + b;
    assert AfterAct(vs, i) == a + Settled(x) + b;
    StepParts(a, x, b);
  }

  lemma StepParts(a: seq<Verdict>, x: Verdict, b: seq<Verdict>)
    requires !Quiet(x) && forall j :: 0 <= j < |a| ==> Quiet(a[j])
    ensures var was, now := a + [x] + b, a + Settled(x) + b;
            && Kept(was) == Kept(now) && Freed(was) == FreedOf(x) + Freed(now)
            && Sent(was) == SentOf(x) + Sent(now) && Unsettled(now) == Unsettled(was) - 1
  {
    StepKept(a, x, b);
    StepFreed(a, x, b);
    StepSent(a, x, b);
    StepUnsettled(a, x, b);
  }

  /** With what was done before put in front. */
  lemma StepKeepsGoal(vs: seq<Verdict>, i: nat, pool: seq<Node>, sent: seq<Packet>)
    requires i < |vs| && !vs[i].o.Undefined? && forall j :: 0 <= j < i ==> Quiet(vs[j])
    ensures Kept(AfterAct(vs, i)) == Kept(vs)
    ensures pool + FreedOf(vs[i]) + Freed(AfterAct(vs, i)) == pool + Freed(vs)
    ensures sent + SentOf(vs[i]) + Sent(AfterAct(vs, i)) == sent + Sent(vs)
    ensures if Quiet(vs[i]) then AfterAct(vs, i) == vs else Unsettled(AfterAct(vs, i)) < Unsettled(vs)
  {
    if Quiet(vs[i]) {
      QuietStep(vs, i);
      Nothing(pool, FreedOf(vs[i]));
      Nothing(sent, SentOf(vs[i]));
    } else {
      SweepStep(vs, i);
      Associate(pool, FreedOf(vs[i]), Freed(AfterAct(vs, i)));
      Associate(sent, SentOf(vs[i]), Sent(AfterAct(vs, i)));
    }
  }

  lemma QuietStep(vs: seq<Verdict>, i: nat)
    requires i < |vs| && Quiet(vs[i])
    ensures AfterAct(vs, i) == vs && FreedOf(vs[i]) == [] && SentOf(vs[i]) == []
  {
    assert Settled(vs[i]) == [vs[i]];
  }

  lemma Nothing<U>(x: seq<U>, y: seq<U>)
    requires y == []
    ensures x + y == x
  {
  }

  lemma StepFreed(a: seq<Verdict>, x: Verdict, b: seq<Verdict>)
    requires forall j :: 0 <= j < |a| ==> Quiet(a[j])
    ensures Freed(a + [x] + b) == FreedOf(x) + Freed(a + Settled(x) + b)
  {
    StepPiece(FreedOf, a, x, b);
  }

  lemma StepSent(a: seq<Verdict>, x: Verdict, b: seq<Verdict>)
    requires forall j :: 0 <= j < |a| ==> Quiet(a[j])
    ensures Sent(a + [x] + b) == SentOf(x) + Sent(a + Settled(x) + b)
  {
    StepPiece(SentOf, a, x, b);
  }

  function Settled(v: Verdict): seq<Verdict> {
    if v.o.Keep? then [Verdict(v.o.r, Keep(v.o.r, []))] else []
  }

  lemma StepPiece<U>(f: Verdict -> seq<U>, a: seq<Verdict>, x: Verdict, b: seq<Verdict>)
    requires forall j :: 0 <= j < |a| ==> f(a[j]) == []
    requires forall j :: 0 <= j < |Settled(x)| ==> f(Settled(x)[j]) == []
    ensures FlatMap(f, a + [x] + b) == f(x) + FlatMap(f, a + Settled(x) + b)
  {
    FlatMapAt(f, a, x, b);
    FlatMapSplits(f, a + Settled(x), b);
    FlatMapSplits(f, a, Settled(x));
    NoPieces(f, a);
    NoPieces(f, Settled(x));
    Empties(f(x), FlatMap(f, b));
  }

  lemma Empties<U>(y: seq<U>, z: seq<U>)
    ensures [] + y + z == y + ([] + [] + z)
  {
  }

  lemma StepKept(a: seq<Verdict>, x: Verdict, b: seq<Verdict>)
    ensures Kept(a + [x] + b) == Kept(a + Settled(x) + b)
  {
    FlatMapAt(KeptOf, a, x, b);
    FlatMapSplits(KeptOf, a + Settled(x), b);
    FlatMapSplits(KeptOf, a, Settled(x));
    assert x.o.Keep? ==> Settled(x)[1..] == [];
    assert Kept(Settled(x)) == KeptOf(x);
  }

  lemma StepUnsettled(a: seq<Verdict>, x: Verdict, b: seq<Verdict>)
    requires !Quiet(x)
    ensures Unsettled(a + Settled(x) + b) == Unsettled(a + [x] + b) - 1
  {
    UnsettledSplits(a + [x], b);
    UnsettledSplits(a, [x]);
    UnsettledSplits(a + Settled(x), b);
    UnsettledSplits(a, Settled(x));
  }

  // ---------------------------------------------------------------- the program

  datatype Target = To(stat: State) | Term

  class Client {
    const id: Endpoint
    /** The pool entry it holds. The head of the client list holds none. */
    const addr: Cell?<Node>
    var stat: State
    var tout: int
    var ttl: int
    var ttlcounter: nat

    constructor (id: Endpoint, addr: Cell?<Node>)
      ensures this.id == id && this.addr == addr
      ensures stat == Init && tout == MESSAGE_TIMEOUT && ttl == 0 && ttlcounter == 0
    {
      this.id, this.addr := id, addr;
      stat, tout, ttl, ttlcounter := Init, MESSAGE_TIMEOUT, 0, 0;
    }

    ghost function Rec(): Record
      requires addr != null
      reads this
    {
      Record(id, stat, tout, ttl, ttlcounter, addr.item)
    }
  }

  class Daemon {
    const ttlMax: nat
    /** The configured addresses, and the lists threaded through them and through the clients. */
    const addrPool: seq<Cell<Node>>
    const addrPoolH: Cell<Node>
    const clientH: Cell<Client>
    var sent: seq<Packet>
    /** The clients whose memory has been given back. */
    var freed: set<Cell<Client>>
    ghost var pool: seq<Cell<Node>>
    ghost var clients: seq<Cell<Client>>
    /** Every client the server has made. */
    ghost var made: set<Cell<Client>>
    ghost var view: Server
    ghost var Repr: set<object>

    /** Both lists are empty. */
    constructor (ttlMax: nat, cells: seq<Cell<Node>>)
      ensures Valid() && fresh(Repr - set c | c in cells) && this.ttlMax == ttlMax && addrPool == cells
      ensures view == Server(ttlMax, [], [], Wild) && sent == []
    {
      var poolHead := new Cell<Node>.Head(Node(0, 0));
      var noClient := new Client(Endpoint(0, 0), null);
      var clientHead := new Cell<Client>.Head(noClient);
      this.ttlMax, addrPool, addrPoolH, clientH, sent := ttlMax, cells, poolHead, clientHead, [];
      freed, made := {}, {};
      pool, clients, view := [], [], Server(ttlMax, [], [], Wild);
      Repr := {this, poolHead, clientHead} + set c | c in cells;
    }

    /** Puts the configured addresses into the pool, in order. */
    method ReadConfig(ghost config: seq<Node>)
      requires Valid() && Holds(config) && view == Server(ttlMax, [], [], Wild)
      modifies this`pool, this`view, addrPoolH, addrPool
      ensures Valid() && view == Server(ttlMax, config, [], Wild)
    {
      for n := 0 to |addrPool|
        invariant Valid() && pool == addrPool[..n] && view == Server(ttlMax, config[..n], [], Wild)
      {
        assert addrPool[n] !in addrPool[..n];
        InsertAddrPool(addrPool[n]);
        assert config[..n + 1] == config[..n] + [config[n]];
      }
      assert config[..|config|] == config;
    }

    // ---- representation

    /** The configured addresses are those of `config`, each in a cell of its own. */
    ghost predicate Holds(config: seq<Node>) {
      && |addrPool| == |config| && (forall i :: 0 <= i < |config| ==> addrPool[i].item == config[i])
      && forall i, j :: 0 <= i < j < |addrPool| ==> addrPool[i] != addrPool[j]
    }

    /** Pool and clients hold configured addresses, and each client has a record of its own. */
    ghost predicate Owned(pool: seq<Cell<Node>>, clients: seq<Cell<Client>>) {
      && addrPoolH !in addrPool && clientH.item.addr == null
      && (forall k :: 0 <= k < |pool| ==> pool[k] in addrPool)
      && (forall k :: 0 <= k < |clients| ==> clients[k].item.addr != null && clients[k].item.addr in addrPool)
      && (forall k, l :: 0 <= k < l < |clients| ==> clients[k].item != clients[l].item)
      && Unshared(pool, clients)
    }

    ghost function AddrOf(clients: seq<Cell<Client>>, k: nat): Cell?<Node>
      requires k < |clients|
    {
      clients[k].item.addr
    }

    /** No address is both in the pool and held, and no two clients hold the same. */
    ghost predicate Unshared(pool: seq<Cell<Node>>, clients: seq<Cell<Client>>) {
      && (forall k, l {:trigger AddrOf(clients, k), AddrOf(clients, l)} :: 0 <= k < l < |clients| ==>
            AddrOf(clients, k) != AddrOf(clients, l))
      && (forall k, l {:trigger AddrOf(clients, k), pool[l]} :: 0 <= k < |clients| && 0 <= l < |pool| ==>
            AddrOf(clients, k) != pool[l])
    }

    /** The address is neither in the pool nor held. */
    ghost predicate Unused(a: Cell<Node>, pool: seq<Cell<Node>>, clients: seq<Cell<Client>>) {
      a in addrPool && a !in pool && forall k :: 0 <= k < |clients| ==> AddrOf(clients, k) != a
    }

    lemma UnsharedReturned(pool: seq<Cell<Node>>, clients: seq<Cell<Client>>, i: nat)
      requires Unshared(pool, clients) && i < |clients| && clients[i].item.addr != null
      ensures Unshared(pool + [clients[i].item.addr], Cut(clients, i))
    {
      var cut := Cut(clients, i);
      assert clients[i].item.addr == AddrOf(clients, i);
      forall k | 0 <= k < |cut| ensures AddrOf(cut, k) == AddrOf(clients, if k < i then k else k + 1) {
      }
    }

    lemma OwnedReturned(pool: seq<Cell<Node>>, clients: seq<Cell<Client>>, i: nat)
      requires Owned(pool, clients) && i < |clients|
      ensures Owned(pool + [clients[i].item.addr], Cut(clients, i))
    {
      UnsharedReturned(pool, clients, i);
    }

    lemma OwnedPushed(pool: seq<Cell<Node>>, clients: seq<Cell<Client>>, new_: Cell<Client>)
      requires Owned(pool, clients) && new_.item.addr != null && Unused(new_.item.addr, pool, clients)
      requires forall k :: 0 <= k < |clients| ==> clients[k].item != new_.item
      ensures Owned(pool, [new_] + clients)
    {
      var all := [new_] + clients;
      forall k | 0 < k < |all| ensures AddrOf(all, k) == AddrOf(clients, k - 1) {
      }
      assert AddrOf(all, 0) == new_.item.addr;
    }

    ghost predicate Tracked(Repr: set<object>, clients: seq<Cell<Client>>) {
      && this in Repr && addrPoolH in Repr && clientH in Repr
      && (forall k :: 0 <= k < |addrPool| ==> addrPool[k] in Repr)
      && (forall k :: 0 <= k < |clients| ==> clients[k] in Repr && clients[k].item in Repr)
    }

    lemma TrackedPushed(Repr: set<object>, clients: seq<Cell<Client>>, new_: Cell<Client>)
      requires Tracked(Repr, clients)
      ensures Tracked(Repr + {new_, new_.item}, [new_] + clients)
    {
    }

    lemma TrackedCut(Repr: set<object>, clients: seq<Cell<Client>>, i: nat)
      requires Tracked(Repr, clients) && i < |clients|
      ensures Tracked(Repr, Cut(clients, i))
    {
    }

    ghost predicate On(c: Cell<Client>, clients: seq<Cell<Client>>) {
      c in clients
    }

    /** A client is on the list from when it is made until its memory is given back. */
    ghost predicate Accounted(made: set<Cell<Client>>, clients: seq<Cell<Client>>, freed: set<Cell<Client>>) {
      clientH !in made && freed <= made
      && (forall c {:trigger On(c, clients)} :: c in clients ==> c in made && c !in freed)
      && forall c {:trigger On(c, clients)} :: c in made && !On(c, clients) ==> c in freed
    }

    lemma AccountedPushed(made: set<Cell<Client>>, clients: seq<Cell<Client>>, freed: set<Cell<Client>>,
                          new_: Cell<Client>)
      requires Accounted(made, clients, freed) && new_ !in made && new_ != clientH
      ensures Accounted(made + {new_}, [new_] + clients, freed)
    {
      forall c | c in [new_] + clients ensures c == new_ || On(c, clients) {
      }
      forall c | c in made + {new_} && !On(c, [new_] + clients) ensures !On(c, clients) && c != new_ {
        assert ([new_] + clients)[0] == new_;
      }
    }

    lemma AccountedCut(made: set<Cell<Client>>, clients: seq<Cell<Client>>, freed: set<Cell<Client>>, i: nat)
      requires Accounted(made, clients, freed) && i < |clients| && Apart(clientH, clients)
      ensures Accounted(made, Cut(clients, i), freed + {clients[i]})
    {
      assert On(clients[i], clients);
      forall c | c in Cut(clients, i) ensures On(c, clients) && c != clients[i] {
        OnCut(clients, i, c);
      }
      forall c | c in made && !On(c, Cut(clients, i)) ensures !On(c, clients) || c == clients[i] {
        OnCut(clients, i, c);
      }
    }

    lemma OnCut(clients: seq<Cell<Client>>, i: nat, c: Cell<Client>)
      requires i < |clients| && Apart(clientH, clients)
      ensures On(c, Cut(clients, i)) <==> On(c, clients) && c != clients[i]
    {
      if On(c, clients) && c != clients[i] {
        var k :| 0 <= k < |clients| && clients[k] == c;
        assert Cut(clients, i)[if k < i then k else k - 1] == c;
      }
    }

    /** The lists hold the values of `v`. */
    ghost predicate Matches(v: Server, pool: seq<Cell<Node>>, clients: seq<Cell<Client>>)
      requires Owned(pool, clients)
      reads set c | c in clients :: c.item
    {
      && v.ttlMax == ttlMax && |v.pool| == |pool| && |v.clients| == |clients|
      && (forall k :: 0 <= k < |pool| ==> v.pool[k] == pool[k].item)
      && (forall k :: 0 <= k < |clients| ==> v.clients[k] == clients[k].item.Rec())
    }

    lemma MatchesPushed(v: Server, pool: seq<Cell<Node>>, clients: seq<Cell<Client>>, new_: Cell<Client>)
      requires Owned(pool, clients) && Owned(pool, [new_] + clients) && Matches(v, pool, clients)
      ensures ([new_] + clients)[0] == new_ && new_.item.addr != null
      ensures Matches(v.(clients := [new_.item.Rec()] + v.clients), pool, [new_] + clients)
    {
      assert ([new_] + clients)[0] == new_;
    }

    lemma MatchesTaken(v: Server, pool: seq<Cell<Node>>, clients: seq<Cell<Client>>)
      requires Owned(pool, clients) && Ring(addrPoolH, pool) && Matches(v, pool, clients) && pool != []
      ensures Owned(pool[1..], clients) && Unused(pool[0], pool[1..], clients)
      ensures Matches(v.(pool := v.pool[1..]), pool[1..], clients) && v.pool[0] == pool[0].item
    {
      var rest := pool[1..];
      forall l | 0 <= l < |rest| ensures rest[l] == pool[l + 1] {
      }
    }

    lemma MatchesInserted(v: Server, pool: seq<Cell<Node>>, clients: seq<Cell<Client>>, a: Cell<Node>)
      requires Owned(pool, clients) && Matches(v, pool, clients) && Unused(a, pool, clients)
      ensures Owned(pool + [a], clients) && Matches(v.(pool := v.pool + [a.item]), pool + [a], clients)
    {
    }

    lemma MatchesReturned(v: Server, pool: seq<Cell<Node>>, clients: seq<Cell<Client>>, i: nat)
      requires Owned(pool, clients) && Matches(v, pool, clients) && i < |clients|
      ensures Owned(pool + [clients[i].item.addr], Cut(clients, i))
      ensures Matches(Without(v, i), pool + [clients[i].item.addr], Cut(clients, i))
    {
      OwnedReturned(pool, clients, i);
    }

    ghost predicate Valid()
      reads this, Repr
    {
      && Tracked(Repr, clients) && Accounted(made, clients, freed) && Owned(pool, clients)
      && Ring(addrPoolH, pool) && Ring(clientH, clients) && Matches(view, pool, clients)
    }

    /** `p` is the i-th client of the list. */
    ghost predicate Listed(p: Cell<Client>, i: nat)
      reads this
    {
      i < |clients| && clients[i] == p
    }

    /** No client was made, and none is back that was given back. */
    ghost predicate NoneMade(madeBefore: set<Cell<Client>>, freedBefore: set<Cell<Client>>)
      reads this
    {
      made == madeBefore && freedBefore <= freed
    }

    /** What only the main loop changes is as it was. */
    ghost predicate Steady(before: Server)
      reads this
    {
      view.ttlMax == before.ttlMax && view.cur == before.cur
    }

    // ---- pool and client list

    method InsertAddrPool(a: Cell<Node>)
      requires Valid() && Unused(a, pool, clients)
      modifies this`pool, this`view, addrPoolH, addrPool
      ensures Valid() && pool == old(pool) + [a]
      ensures view == old(view).(pool := old(view).pool + [a.item])
    {
      LinkAddress(a);
      pool := pool + [a];
      view := view.(pool := view.pool + [a.item]);
    }

    method LinkAddress(a: Cell<Node>)
      requires Owned(pool, clients) && Ring(addrPoolH, pool) && Unused(a, pool, clients)
      requires Matches(view, pool, clients) && Ring(clientH, clients)
      modifies addrPoolH, addrPool
      ensures Ring(addrPoolH, pool + [a]) && Ring(clientH, clients) && Owned(pool + [a], clients)
      ensures Matches(view.(pool := view.pool + [a.item]), pool + [a], clients)
    {
      MatchesInserted(view, pool, clients, a);
      InsertTail(addrPoolH, a, pool);
    }

    method FetchAddrPool() returns (a: Cell<Node>)
      requires Valid() && pool != []
      modifies this`pool, this`view, addrPoolH, addrPool
      ensures Valid() && Unused(a, pool, clients)
      ensures view == old(view).(pool := old(view).pool[1..]) && a.item == old(view).pool[0]
    {
      a := UnlinkFirst();
      pool := pool[1..];
      view := view.(pool := view.pool[1..]);
    }

    method UnlinkFirst() returns (a: Cell<Node>)
      requires Owned(pool, clients) && Ring(addrPoolH, pool) && Ring(clientH, clients) && Matches(view, pool, clients)
      requires pool != []
      modifies addrPoolH, addrPool
      ensures Ring(addrPoolH, pool[1..]) && Ring(clientH, clients)
      ensures Owned(pool[1..], clients) && Unused(a, pool[1..], clients)
      ensures Matches(view.(pool := view.pool[1..]), pool[1..], clients) && a.item == view.pool[0]
    {
      MatchesTaken(view, pool, clients);
      a := TakeFirst(addrPoolH, pool);
    }

    /** Counts the pool; despite its name, a nonzero result means that an address is left. */
    method IsAddrPoolEmpty() returns (num: nat)
      requires Valid()
      ensures num == |view.pool|
    {
      num := Length(addrPoolH, pool);
    }

    method CreateClient(e: Endpoint) returns (client: Cell?<Client>)
      requires Valid()
      modifies this`pool, this`clients, this`made, this`view, this`Repr, addrPoolH, addrPool, clientH, clients
      ensures Valid() && fresh(Repr - old(Repr)) && old(Repr) <= Repr
      ensures client == null <==> old(view).pool == []
      ensures if client == null then view == old(view)
              else view == Create(old(view), e) && Listed(client, 0)
    {
      var num := IsAddrPoolEmpty();
      if num == 0 { return null; }
      var a := FetchAddrPool();
      client := Enlist(e, a);
    }

    method Enlist(e: Endpoint, a: Cell<Node>) returns (cell: Cell<Client>)
      requires Valid() && Unused(a, pool, clients)
      modifies this`clients, this`made, this`view, this`Repr, clientH, clients
      ensures Valid() && fresh(Repr - old(Repr)) && old(Repr) <= Repr && Listed(cell, 0)
      ensures view == old(view).(clients := [Record(e, Init, MESSAGE_TIMEOUT, 0, 0, a.item)] + old(view).clients)
    {
      var client := new Client(e, a);
      cell := new Cell<Client>(client);
      assert Valid();
      InsertClient(cell);
    }

    method InsertClient(new_: Cell<Client>)
      requires Valid() && new_ !in Repr && new_.item !in Repr && new_ !in made
      requires new_.item.addr != null && Unused(new_.item.addr, pool, clients)
      modifies this`clients, this`made, this`view, this`Repr, clientH, clients, new_
      ensures Valid() && Repr == old(Repr) + {new_, new_.item} && clients == [new_] + old(clients)
      ensures view == old(view).(clients := [new_.item.Rec()] + old(view).clients)
    {
      LinkClient(new_);
      TrackedPushed(Repr, clients, new_);
      AccountedPushed(made, clients, freed, new_);
      clients := [new_] + clients;
      Repr, made := Repr + {new_, new_.item}, made + {new_};
      view := view.(clients := [new_.item.Rec()] + view.clients);
    }

    method LinkClient(new_: Cell<Client>)
      requires Owned(pool, clients) && Ring(addrPoolH, pool) && Ring(clientH, clients) && Matches(view, pool, clients)
      requires new_ != clientH && new_ !in clients && forall k :: 0 <= k < |clients| ==> clients[k].item != new_.item
      requires new_.item.addr != null && Unused(new_.item.addr, pool, clients)
      modifies clientH, clients, new_
      ensures Ring(addrPoolH, pool) && Ring(clientH, [new_] + clients) && Owned(pool, [new_] + clients)
      ensures ([new_] + clients)[0] == new_
      ensures Matches(view.(clients := [new_.item.Rec()] + view.clients), pool, [new_] + clients)
    {
      OwnedPushed(pool, clients, new_);
      MatchesPushed(view, pool, clients, new_);
      InsertHead(clientH, new_, clients);
    }

    // ---- fields of a client

    method SetTtl(p: Cell<Client>, ttl: int, ghost i: nat)
      requires Valid() && Listed(p, i)
      modifies this`view, p.item`ttl
      ensures Valid()
      ensures view == old(view).(clients := old(view).clients[i := old(view).clients[i].(ttl := ttl)])
    {
      p.item.ttl := ttl;
      view := view.(clients := view.clients[i := view.clients[i].(ttl := ttl)]);
    }

    method SetTout(p: Cell<Client>, tout: int, ghost i: nat)
      requires Valid() && Listed(p, i)
      modifies this`view, p.item`tout
      ensures Valid()
      ensures view == old(view).(clients := old(view).clients[i := old(view).clients[i].(tout := tout)])
    {
      p.item.tout := tout;
      view := view.(clients := view.clients[i := view.clients[i].(tout := tout)]);
    }

    method SetStat(p: Cell<Client>, stat: State, ghost i: nat)
      requires Valid() && Listed(p, i)
      modifies this`view, p.item`stat
      ensures Valid()
      ensures view == old(view).(clients := old(view).clients[i := old(view).clients[i].(stat := stat)])
    {
      p.item.stat := stat;
      view := view.(clients := view.clients[i := view.clients[i].(stat := stat)]);
    }

    method SetTtlcounter(p: Cell<Client>, ttl: nat, ghost i: nat)
      requires Valid() && Listed(p, i)
      modifies this`view, p.item`ttlcounter
      ensures Valid()
      ensures view == old(view).(clients := old(view).clients[i := old(view).clients[i].(ttlcounter := ttl)])
    {
      p.item.ttlcounter := ttl;
      view := view.(clients := view.clients[i := view.clients[i].(ttlcounter := ttl)]);
    }

    method ChangeState(p: Cell<Client>, to: Target, ghost i: nat)
      requires Valid() && Listed(p, i)
      modifies Repr
      ensures Valid() && Repr == old(Repr) && sent == old(sent) && NoneMade(old(made), old(freed))
      ensures to.To? ==> clients == old(clients)
      ensures to.To? ==>
                var v := old(view);
                view == v.(clients := v.clients[i := v.clients[i].(stat := to.stat, tout := MESSAGE_TIMEOUT)])
      ensures to.Term? ==> clients == Cut(old(clients), i) && view == Without(old(view), i)
    {
      match to
      case To(stat) =>
        Enter(p, stat, i);
      case Term =>
        Finish(p, i);
    }

    /** Enters the last state: the client is gone. */
    method Finish(p: Cell<Client>, ghost i: nat)
      requires Valid() && Listed(p, i)
      modifies this`pool, this`clients, this`view, this`freed, addrPoolH, addrPool, clientH, clients, p.item
      ensures Valid() && clients == Cut(old(clients), i) && view == Without(old(view), i)
      ensures freed == old(freed) + {p}
    {
      CutUpdated(view.clients, i, view.clients[i].(tout := MESSAGE_TIMEOUT));
      SetTout(p, MESSAGE_TIMEOUT, i);
      ReturnAddress(p, i);
    }

    /** Enters a state that is not the last, and restarts the wait. */
    method Enter(p: Cell<Client>, stat: State, ghost i: nat)
      requires Valid() && Listed(p, i)
      modifies this`view, p.item
      ensures Valid()
      ensures var v := old(view);
              view == v.(clients := v.clients[i := v.clients[i].(stat := stat, tout := MESSAGE_TIMEOUT)])
    {
      ghost var v := view;
      SetTout(p, MESSAGE_TIMEOUT, i);
      SetStat(p, stat, i);
      UpdatedTwice(v.clients, i, v.clients[i].(tout := MESSAGE_TIMEOUT), view.clients[i]);
    }

    lemma UpdatedTwice(cs: seq<Record>, i: nat, r: Record, r': Record)
      requires i < |cs|
      ensures cs[i := r][i := r'] == cs[i := r']
    {
    }

    lemma CutUpdated(cs: seq<Record>, i: nat, r: Record)
      requires i < |cs|
      ensures Cut(cs[i := r], i) == Cut(cs, i)
    {
    }

    /** The server once client `i` is gone and its address is back in the pool. */
    ghost function Without(v: Server, i: nat): Server
      requires i < |v.clients|
    {
      v.(pool := v.pool + [v.clients[i].addr], clients := Cut(v.clients, i))
    }

    /** Puts the address of a client back into the pool, and takes the client off the list. */
    method ReturnAddress(p: Cell<Client>, ghost i: nat)
      requires Valid() && Listed(p, i)
      modifies this`pool, this`clients, this`view, this`freed, addrPoolH, addrPool, clientH, clients
      ensures Valid() && clients == Cut(old(clients), i) && view == Without(old(view), i)
      ensures freed == old(freed) + {p}
    {
      TrackedCut(Repr, clients, i);
      AccountedCut(made, clients, freed, i);
      Relink(p, i);
      freed := freed + {p};
      Relist(pool + [p.item.addr], Cut(clients, i), Without(view, i));
    }

    /** Notes what the lists are now. */
    ghost method Relist(pool': seq<Cell<Node>>, clients': seq<Cell<Client>>, view': Server)
      requires Tracked(Repr, clients') && Accounted(made, clients', freed) && Owned(pool', clients')
      requires Ring(addrPoolH, pool') && Ring(clientH, clients') && Matches(view', pool', clients')
      modifies this`pool, this`clients, this`view
      ensures Valid() && pool == pool' && clients == clients' && view == view'
    {
      pool, clients, view := pool', clients', view';
    }

    method Relink(p: Cell<Client>, ghost i: nat)
      requires Owned(pool, clients) && Ring(addrPoolH, pool) && Ring(clientH, clients) && Listed(p, i)
      requires Matches(view, pool, clients)
      modifies addrPoolH, addrPool, clientH, clients
      ensures Ring(addrPoolH, pool + [p.item.addr]) && Ring(clientH, Cut(clients, i))
      ensures Owned(pool + [p.item.addr], Cut(clients, i))
      ensures Matches(Without(view, i), pool + [p.item.addr], Cut(clients, i))
    {
      MatchesReturned(view, pool, clients, i);
      Rechain(p, i);
    }

    method Rechain(p: Cell<Client>, ghost i: nat)
      requires Owned(pool, clients) && Ring(addrPoolH, pool) && Ring(clientH, clients) && Listed(p, i)
      modifies addrPoolH, addrPool, clientH, clients
      ensures Ring(addrPoolH, pool + [p.item.addr]) && Ring(clientH, Cut(clients, i))
    {
      assert p.item.addr == AddrOf(clients, i);
      InsertTail(addrPoolH, p.item.addr, pool);
      Unlink(p, clientH, clients, i);
    }

    // ---- send actions

    /** Hands a message to the network, which may refuse it. */
    method SendDhcp(e: Endpoint, msg: Msg) returns (ret: int)
      requires Valid()
      modifies this`sent
      ensures Valid() && sent == old(sent) + ToPeer(e, [msg])
    {
      sent := sent + [Packet(e, msg)];
      assert ToPeer(e, [msg]) == [Packet(e, msg)];
      ret := *;
    }

    /** The state after an outcome was carried out for client `i`. */
    ghost predicate Done(before: Server, sentBefore: seq<Packet>, i: nat, o: Outcome)
      requires i < |before.clients|
      reads this
    {
      var out := ToPeer(before.clients[i].id, if o.Undefined? then [] else o.sent);
      Apply(before, i, o) == Next(view, out) && sent == sentBefore + out
    }

    /** Sends a message to a client and enters a state. */
    method Reply(p: Cell<Client>, msg: Msg, to: State, ghost i: nat) returns (ret: int)
      requires Valid() && Listed(p, i)
      modifies Repr
      ensures Valid() && Repr == old(Repr) && clients == old(clients) && NoneMade(old(made), old(freed))
      ensures Done(old(view), old(sent), i, Keep(old(view).clients[i].(stat := to, tout := MESSAGE_TIMEOUT), [msg]))
    {
      ret := SendDhcp(p.item.id, msg);
      ChangeState(p, To(to), i);
    }

    method SendOffer(p: Cell<Client>, to: State, ghost i: nat) returns (ret: int)
      requires Valid() && Listed(p, i)
      modifies Repr
      ensures Valid() && Repr == old(Repr) && clients == old(clients) && NoneMade(old(made), old(freed))
      ensures var r := old(view).clients[i];
              Done(old(view), old(sent), i, Keep(r.(stat := to, tout := MESSAGE_TIMEOUT), [OfferOk(ttlMax, r.addr)]))
    {
      ret := Reply(p, OfferOk(ttlMax, p.item.addr.item), to, i);
    }

    method SendAckOk(p: Cell<Client>, ghost i: nat) returns (ret: int)
      requires Valid() && Listed(p, i)
      modifies Repr
      ensures Valid() && Repr == old(Repr) && clients == old(clients) && NoneMade(old(made), old(freed))
      ensures Done(old(view), old(sent), i, Act(ttlMax, old(view).clients[i], Action.SendAckOk))
    {
      ghost var cs, r := view.clients, view.clients[i];
      SetTtl(p, p.item.ttlcounter, i);
      ret := Reply(p, AckOk(p.item.ttlcounter, p.item.addr.item), InUse, i);
      assert view.clients == cs[i := r.(stat := InUse, tout := MESSAGE_TIMEOUT, ttl := r.ttlcounter)];
    }

    method SendAckNg(p: Cell<Client>, ghost i: nat) returns (ret: int)
      requires Valid() && Listed(p, i)
      modifies Repr
      ensures Valid() && Repr == old(Repr) && NoneMade(old(made), old(freed))
      ensures Done(old(view), old(sent), i, Act(ttlMax, old(view).clients[i], Action.SendAckNg))
    {
      Dropped(view, i, [AckNg()]);
      assert Act(ttlMax, view.clients[i], Action.SendAckNg) == Drop([AckNg()]);
      ret := SendDhcp(p.item.id, AckNg());
      ChangeState(p, Term, i);
    }

    lemma Dropped(s: Server, i: nat, msgs: seq<Msg>)
      requires i < |s.clients|
      ensures Apply(s, i, Drop(msgs)) == Next(Without(s, i), ToPeer(s.clients[i].id, msgs))
    {
    }

    method ReleaseClient(p: Cell<Client>, ghost i: nat) returns (ret: int)
      requires Valid() && Listed(p, i)
      modifies Repr
      ensures Valid() && Repr == old(Repr) && NoneMade(old(made), old(freed)) && ret == 0
      ensures Done(old(view), old(sent), i, Act(ttlMax, old(view).clients[i], Action.ReleaseClient))
    {
      Dropped(view, i, []);
      assert sent + [] == sent;
      ChangeState(p, Term, i);
      ret := 0;
    }

    method ResetTtl(p: Cell<Client>, ghost i: nat) returns (ret: int)
      requires Valid() && Listed(p, i)
      modifies Repr
      ensures Valid() && Repr == old(Repr) && clients == old(clients) && NoneMade(old(made), old(freed))
      ensures Done(old(view), old(sent), i, Act(ttlMax, old(view).clients[i], Action.ResetTtl))
    {
      ghost var s := view;
      SetTtl(p, p.item.ttlcounter, i);
      GrantedAgain(s, i);
      ret := SendAckOk(p, i);
    }

    /** Noting the new lifetime first makes no difference to a grant. */
    lemma GrantedAgain(s: Server, i: nat)
      requires i < |s.clients|
      ensures var r := s.clients[i];
              var s' := s.(clients := s.clients[i := r.(ttl := r.ttlcounter)]);
              Apply(s', i, Act(s.ttlMax, s'.clients[i], Action.SendAckOk)) ==
              Apply(s, i, Act(s.ttlMax, r, Action.ResetTtl))
    {
    }

    // ---- state machine

    /** Looks the event up and runs its action; `crashed` tells that the table held no handler. */
    method FsmFunc(p: Cell<Client>, event: Event, ghost i: nat) returns (ret: int, crashed: bool)
      requires Valid() && Listed(p, i)
      modifies Repr
      ensures Valid() && Repr == old(Repr) && NoneMade(old(made), old(freed))
      ensures var r := old(view).clients[i];
              && (crashed <==> Table(r.stat, event) == NullHandler)
              && (!crashed ==> Done(old(view), old(sent), i, Act(ttlMax, r, Table(r.stat, event))))
              && (Act(ttlMax, r, Table(r.stat, event)).Keep? ==> clients == old(clients))
              && (Table(r.stat, event) == NoAction ==> ret < 0)
              && (Table(r.stat, event) == Action.ReleaseClient ==> ret == 0)
    {
      ret, crashed := -1, false;
      match Table(p.item.stat, event)
      case NoAction =>
        assert view.clients[i := view.clients[i]] == view.clients && sent + [] == sent;
      case SendOfferOk => ret := SendOffer(p, WaitReq1, i);
      case ResendOffer => ret := SendOffer(p, WaitReq2, i);
      case SendAckOk => ret := SendAckOk(p, i);
      case SendAckNg => ret := SendAckNg(p, i);
      case ReleaseClient => ret := ReleaseClient(p, i);
      case ResetTtl => ret := ResetTtl(p, i);
      case NullHandler => crashed := true;
    }

    /** Classifies a message; a request leaves its lifetime in the record. */
    method GetEvent(msg: Msg, p: Cell<Client>, ghost i: nat) returns (event: Event)
      requires Valid() && Listed(p, i)
      modifies this`view, p.item`ttlcounter
      ensures Valid()
      ensures var r := old(view).clients[i];
              event == EventOf(ttlMax, r, msg) && view == old(view).(clients := old(view).clients[i := Noted(r, msg)])
    {
      assert view.clients[i := view.clients[i]] == view.clients;
      var held := p.item.addr.item;
      if msg.kind == TYPE_DISCOVER {
        if msg.code != 0 || msg.ttl != 0 || msg.ip != 0 || msg.mask != 0 { return UnknownMsg; }
        return Discover;
      } else if msg.kind == TYPE_REQUEST {
        var ok, err;
        if msg.code == CODE_REQ_ALLOC {
          ok, err := RequestAllocOk, RequestAllocNg;
        } else if msg.code == CODE_REQ_EXT {
          ok, err := RequestExtOk, RequestExtNg;
        } else {
          return UnknownMsg;
        }
        event := ok;
        if msg.ttl > ttlMax { event := err; }
        SetTtlcounter(p, msg.ttl, i);
        if msg.ip != held.ip { event := err; }
        if msg.mask != held.mask { event := err; }
      } else if msg.kind == TYPE_RELEASE {
        event := ReleaseOk;
        if msg.code != 0 { event := ReleaseNg; }
        if msg.ttl != 0 { event := ReleaseNg; }
        if msg.mask != 0 { event := ReleaseNg; }
        if msg.ip != held.ip { event := ReleaseNg; }
      } else {
        event := NoEvent;
      }
    }

    // ---- main loop

    /** The first client of the list, or its head. */
    function First(): (p: Cell<Client>)
      requires Valid()
      reads this, Repr
      ensures p == At(clientH, clients, 0)
    {
      assert clientH == At(clientH, clients, -1);
      clientH.fp
    }

    /** The walk stands at client `i`, and the records of `v` before it are counted down. */
    ghost predicate CountedDownTo(v: Server, p: Cell<Client>, i: nat)
      reads this
    {
      i <= |v.clients| == |clients| && p == At(clientH, clients, i)
      && view == v.(clients := CountedTo(v.clients, i))
    }

    method DecrementAll()
      requires Valid()
      modifies this`view, set c | c in clients :: c.item
      ensures Valid() && view == old(view).(clients := CountDownAll(old(view).clients))
    {
      CountedNone(view);
      var p := First();
      ghost var i := DecrementFrom(p, view);
      CountedAll(old(view).clients);
    }

    lemma CountedNone(v: Server)
      ensures v == v.(clients := CountedTo(v.clients, 0))
    {
    }

    /** The walk over the list, to its end. */
    method DecrementFrom(first: Cell<Client>, ghost v: Server) returns (ghost i: nat)
      requires Valid() && CountedDownTo(v, first, 0)
      modifies this`view, set c | c in clients :: c.item
      ensures Valid() && i == |clients| && CountedDownTo(v, clientH, i)
    {
      var p := first;
      i := 0;
      while p != clientH
        invariant Valid() && CountedDownTo(v, p, i)
        decreases |clients| - i
      {
        p := DecrementOne(p, v, i);
        i := i + 1;
      }
    }

    method DecrementOne(p: Cell<Client>, ghost v: Server, ghost i: nat) returns (next: Cell<Client>)
      requires Valid() && i < |clients| && CountedDownTo(v, p, i)
      modifies this`view, p.item
      ensures Valid() && CountedDownTo(v, next, i + 1)
    {
      CountedOneMore(v.clients, i);
      Decrement(p, i);
      assert At(clientH, clients, i).fp == At(clientH, clients, i + 1);
      next := p.fp;
    }

    method Decrement(p: Cell<Client>, ghost i: nat)
      requires Valid() && Listed(p, i)
      modifies this`view, p.item
      ensures Valid()
      ensures view == old(view).(clients := old(view).clients[i := CountDown(old(view).clients[i])])
    {
      assert view.clients[i := view.clients[i]] == view.clients;
      if p.item.stat == InUse {
        SetTtl(p, p.item.ttl - 1, i);
      } else if p.item.stat == WaitReq1 || p.item.stat == WaitReq2 {
        SetTout(p, p.item.tout - 1, i);
      }
    }

    ghost function Verdicts(sweep: Sweep): seq<Verdict>
      reads this
    {
      DhcpServer.Verdicts(view.ttlMax, sweep, view.clients)
    }

    function Counter(sweep: Sweep, p: Cell<Client>): int
      reads p.item
    {
      if sweep == TtlSweep then p.item.ttl else p.item.tout
    }

    /** Asks the transition table about client `i`, whose counter has run out. */
    method TimeOut(sweep: Sweep, p: Cell<Client>, ghost i: nat) returns (ret: int)
      requires Valid() && Listed(p, i) && Counter(sweep, p) <= 0
      modifies Repr
      ensures Valid() && Repr == old(Repr) && NoneMade(old(made), old(freed))
      ensures ret < 0 ==> clients == old(clients)
      ensures var v := old(Verdicts(sweep))[i];
              && !v.o.Undefined? && (Quiet(v) ==> ret < 0)
              && view.pool == old(view).pool + FreedOf(v) && sent == old(sent) + SentOf(v)
      ensures Steady(old(view)) && Verdicts(sweep) == AfterAct(old(Verdicts(sweep)), i)
    {
      ghost var before := view;
      DueAction(ttlMax, sweep, view.clients[i]);
      var crashed;
      ret, crashed := FsmFunc(p, TimeoutEvent(sweep), i);
      TimedOut(before, sweep, i, view);
    }

    function TimeoutEvent(sweep: Sweep): Event {
      if sweep == TtlSweep then TtlTimeout else ReqTimeout
    }

    /** What the table has for a record whose counter has run out. */
    lemma DueAction(ttlMax: nat, sweep: Sweep, r: Record)
      requires (if sweep == TtlSweep then r.ttl else r.tout) <= 0
      ensures var o, action := SweepOutcome(ttlMax, sweep, r), Table(r.stat, TimeoutEvent(sweep));
              && o == Act(ttlMax, r, action) && action != NullHandler && !o.Undefined?
              && (o == Keep(r, []) ==> action == NoAction) && (o.Drop? ==> action == Action.ReleaseClient)
    {
    }

    lemma TimedOut(s: Server, sweep: Sweep, i: nat, s': Server)
      requires i < |s.clients|
      requires var o := SweepOutcome(s.ttlMax, sweep, s.clients[i]); Apply(s, i, o).Next? && s' == Apply(s, i, o).s
      ensures var vs := DhcpServer.Verdicts(s.ttlMax, sweep, s.clients);
              && s'.ttlMax == s.ttlMax && s'.cur == s.cur && s'.pool == s.pool + FreedOf(vs[i])
              && DhcpServer.Verdicts(s'.ttlMax, sweep, s'.clients) == AfterAct(vs, i)
    {
      ActedIsQuiet(s.ttlMax, sweep, s.clients[i]);
      VerdictsAfterAct(s.ttlMax, sweep, s.clients, i);
    }

    /** The pool, the list and the messages as the sweep will leave them. */
    ghost function Goal(sweep: Sweep): (seq<Node>, seq<Record>, seq<Packet>)
      reads this
    {
      var vs := Verdicts(sweep);
      (view.pool + Freed(vs), Kept(vs), sent + Sent(vs))
    }

    /** One turn of a sweep's walk at a client whose counter has run out. */
    method SweepAt(sweep: Sweep, p: Cell<Client>, ghost i: nat) returns (ret: int)
      requires Valid() && Listed(p, i) && Counter(sweep, p) <= 0
      requires forall j :: 0 <= j < i ==> Quiet(Verdicts(sweep)[j])
      modifies Repr
      ensures Valid() && Repr == old(Repr) && NoneMade(old(made), old(freed)) && Steady(old(view))
      ensures Goal(sweep) == old(Goal(sweep))
      ensures Verdicts(sweep) == old(Verdicts(sweep)) || Unsettled(Verdicts(sweep)) < Unsettled(old(Verdicts(sweep)))
      ensures ret >= 0 ==> Unsettled(Verdicts(sweep)) < Unsettled(old(Verdicts(sweep)))
      ensures ret < 0 ==> Listed(p, i) && forall j :: 0 <= j <= i ==> Quiet(Verdicts(sweep)[j])
    {
      ghost var vs, v, s := Verdicts(sweep), view.pool, sent;
      ret := TimeOut(sweep, p, i);
      StepKeepsGoal(vs, i, v, s);
    }

    /** The walk stands at client `i`, and nothing is left to be done before it. */
    ghost predicate SweptTo(sweep: Sweep, p: Cell<Client>, i: nat)
      reads this
    {
      i <= |clients| && |view.clients| == |clients| && p == At(clientH, clients, i)
      && forall j :: 0 <= j < i ==> Quiet(Verdicts(sweep)[j])
    }

    /** One turn of a sweep's walk, which goes on behind client `i` or starts again at the front. */
    method SweepOne(sweep: Sweep, p: Cell<Client>, ghost i: nat) returns (next: Cell<Client>, ghost k: nat)
      requires Valid() && i < |clients| && SweptTo(sweep, p, i)
      modifies Repr
      ensures Valid() && Repr == old(Repr) && NoneMade(old(made), old(freed)) && Steady(old(view))
      ensures Goal(sweep) == old(Goal(sweep))
      ensures SweptTo(sweep, next, k)
      ensures Unsettled(Verdicts(sweep)) < Unsettled(old(Verdicts(sweep)))
              || (Verdicts(sweep) == old(Verdicts(sweep)) && |clients| == |old(clients)| && k == i + 1)
    {
      next, k := p, i;
      if Counter(sweep, p) <= 0 {
        var ret := SweepAt(sweep, p, i);
        if ret >= 0 {
          next := First();
          return next, 0;
        }
      }
      assert At(clientH, clients, i).fp == At(clientH, clients, i + 1);
      next := p.fp;
      k := i + 1;
    }

    /** One restarting sweep over the list. Whatever the network does with the messages, the walk
        ends, and it leaves the list, the pool and the messages as one pass in list order would. */
    method SweepAll(sweep: Sweep)
      requires Valid()
      modifies Repr
      ensures Valid() && Repr == old(Repr) && NoneMade(old(made), old(freed)) && view == Swept(old(view), sweep)
      ensures sent == old(sent) + SweepSent(ttlMax, sweep, old(view).clients)
      ensures forall j :: 0 <= j < |view.clients| ==>
                SweepOutcome(ttlMax, sweep, view.clients[j]) == Keep(view.clients[j], [])
    {
      var p := First();
      ghost var i := 0;
      while p != clientH
        invariant Valid() && Repr == old(Repr) && NoneMade(old(made), old(freed)) && Steady(old(view))
        invariant SweptTo(sweep, p, i) && Goal(sweep) == old(Goal(sweep))
        decreases Unsettled(Verdicts(sweep)), |clients| - i
      {
        p, i := SweepOne(sweep, p, i);
      }
      QuietSweep(Verdicts(sweep));
    }

    /** Classifies a message from a known client and runs the action for it. */
    method Handle(p: Cell<Client>, msg: Msg, ghost i: nat) returns (crashed: bool)
      requires Valid() && Listed(p, i)
      modifies Repr
      ensures Valid() && Repr == old(Repr) && NoneMade(old(made), old(freed))
      ensures crashed <==> Respond(ttlMax, old(view).clients[i], msg) == Undefined
      ensures Respond(ttlMax, old(view).clients[i], msg).Keep? ==> clients == old(clients)
      ensures !crashed ==> Done(old(view), old(sent), i, Respond(ttlMax, old(view).clients[i], msg))
    {
      NotedFirst(view, i, msg);
      var event := GetEvent(msg, p, i);
      var ret;
      ret, crashed := FsmFunc(p, event, i);
    }

    /** Noting the lifetime of a request first, and then acting, is responding to it. */
    lemma NotedFirst(s: Server, i: nat, msg: Msg)
      requires i < |s.clients|
      ensures var r := s.clients[i];
              var r', o := Noted(r, msg), Respond(s.ttlMax, r, msg);
              && r'.id == r.id && Table(r'.stat, EventOf(s.ttlMax, r, msg)) == Table(r.stat, EventOf(s.ttlMax, r, msg))
              && Act(s.ttlMax, r', Table(r.stat, EventOf(s.ttlMax, r, msg))) == o
              && Apply(s.(clients := s.clients[i := r']), i, o) == Apply(s, i, o)
    {
    }

    /** Walks the list to the client of endpoint `e`, or to the head. */
    method FindClient(e: Endpoint) returns (p: Cell<Client>)
      requires Valid()
      ensures p == At(clientH, clients, IndexOf(view.clients, e))
    {
      p := First();
      ghost var i := 0;
      while p != clientH && p.item.id != e
        invariant i <= |clients| && p == At(clientH, clients, i)
        invariant forall j :: 0 <= j < i ==> view.clients[j].id != e
        decreases |clients| - i
      {
        assert At(clientH, clients, i).fp == At(clientH, clients, i + 1);
        p := p.fp;
        i := i + 1;
      }
    }

    // ---- the main loop's pointer

    /** The pointer `p` of the main loop stands where the specification says. */
    ghost predicate Pointed(p: Cell?<Client>)
      reads this
    {
      match view.cur
      case Wild => p == null
      case ListHead => p == clientH
      case ClientOf(e) =>
        && p != null && p in made && p.item.id == e
        && (p in freed ==> !Known(view.clients, e))
    }

    /** Records and cells of the clients agree about who the clients are. */
    ghost predicate SameIds(cs: seq<Record>, cells: seq<Cell<Client>>) {
      |cs| == |cells| && forall k :: 0 <= k < |cs| ==> cs[k].id == cells[k].item.id
    }

    lemma Alive(c: Cell<Client>)
      requires Accounted(made, clients, freed) && c in made
      ensures c in clients <==> c !in freed
    {
      assert On(c, clients) <==> c in clients;
    }

    lemma OnlyOld(c: Cell<Client>, was: seq<Cell<Client>>, freedWas: set<Cell<Client>>)
      requires Accounted(made, was, freedWas) && Accounted(made, clients, freed) && freedWas <= freed
      requires c in clients
      ensures c in was
    {
      assert On(c, clients) && (On(c, was) <==> c in was);
    }

    /** Once the memory of a client is given back, the server knows no client of that endpoint. */
    lemma GoneUnknown(p: Cell<Client>, was: seq<Cell<Client>>, freedWas: set<Cell<Client>>, csWas: seq<Record>)
      requires Accounted(made, was, freedWas) && SameIds(csWas, was) && DistinctIds(csWas)
      requires Accounted(made, clients, freed) && SameIds(view.clients, clients) && freedWas <= freed
      requires p in freed && (p in was || !Known(csWas, p.item.id))
      ensures !Known(view.clients, p.item.id)
    {
      var cs := view.clients;
      Alive(p);
      forall j | 0 <= j < |cs| ensures cs[j].id != p.item.id {
        OnlyOld(clients[j], was, freedWas);
        assert cs[j].id == clients[j].item.id;
        var k :| 0 <= k < |was| && was[k] == clients[j];
        assert csWas[k].id == cs[j].id;
        if p in was {
          var l :| 0 <= l < |was| && was[l] == p;
          assert csWas[k].id != csWas[l].id;
        }
      }
    }

    /** The first message of an unknown client, a DISCOVER. */
    method Introduce(e: Endpoint, msg: Msg) returns (p: Cell?<Client>)
      requires Valid() && !Known(view.clients, e) && msg.kind == TYPE_DISCOVER && !Unnamed(msg)
      modifies Repr
      ensures Valid() && fresh(Repr - old(Repr))
      ensures Receive(old(view), e, msg) == Next(view, Receive(old(view), e, msg).sent)
      ensures sent == old(sent) + Receive(old(view), e, msg).sent
      ensures if old(view).pool == [] then p == null else p != null && Listed(p, 0) && p in made && p !in freed
    {
      FirstMessage(view, e, msg);
      p := Admit(e, msg);
      if p == null {
        var _ := SendOfferNg(e);
      } else {
        Welcome(p, msg);
        assert On(p, clients);
      }
    }

    method Admit(e: Endpoint, ghost msg: Msg) returns (p: Cell?<Client>)
      requires Valid()
      modifies this`pool, this`clients, this`made, this`view, this`Repr, addrPoolH, addrPool, clientH, clients
      ensures Valid() && fresh(Repr - old(Repr)) && old(Repr) <= Repr
      ensures p == null <==> old(view).pool == []
      ensures var u := old(view).(cur := Reached(old(view), e, msg));
              if p == null then view == u else view == Create(u, e) && Listed(p, 0)
    {
      Point(Reached(view, e, msg));
      p := CreateClient(e);
    }

    method Welcome(p: Cell<Client>, msg: Msg)
      requires Valid() && Listed(p, 0) && Respond(ttlMax, view.clients[0], msg).Keep?
      modifies Repr
      ensures Valid() && Repr == old(Repr) && clients == old(clients)
      ensures Done(old(view), old(sent), 0, Respond(ttlMax, old(view).clients[0], msg))
    {
      var _ := Handle(p, msg, 0);
    }

    lemma FirstMessage(s: Server, e: Endpoint, msg: Msg)
      requires !Known(s.clients, e) && msg.kind == TYPE_DISCOVER && !Unnamed(msg)
      ensures var u := s.(cur := Reached(s, e, msg));
              Receive(s, e, msg) ==
                if s.pool == [] then Next(u, [Packet(e, OfferNg())])
                else Apply(Create(u, e), 0, Respond(s.ttlMax, Create(u, e).clients[0], msg))
      ensures Receive(s, e, msg).Next?
      ensures s.pool != [] ==>
                var o := Respond(s.ttlMax, Create(s, e).clients[0], msg);
                o.Keep? && o.r.id == e
    {
    }

    /** Notes where the pointer of the main loop stands. */
    ghost method Point(cur: Pointer)
      requires Valid()
      modifies this`view
      ensures Valid() && view == old(view).(cur := cur)
    {
      view := view.(cur := cur);
    }

    method SendOfferNg(e: Endpoint) returns (ret: int)
      requires Valid()
      modifies this`sent
      ensures Valid() && sent == old(sent) + [Packet(e, OfferNg())]
    {
      ret := SendDhcp(e, OfferNg());
      assert ToPeer(e, [OfferNg()]) == [Packet(e, OfferNg())];
    }

    /** The turn's handling of one message. */
    method OnMessage(e: Endpoint, msg: Msg) returns (crashed: bool, p: Cell?<Client>)
      requires Valid() && DistinctIds(view.clients)
      modifies Repr
      ensures Valid() && fresh(Repr - old(Repr))
      ensures crashed <==> Fatal(old(view).clients, e, msg)
      ensures !crashed ==> Receive(old(view), e, msg).Next?
      ensures !crashed ==> var res := Receive(old(view), e, msg); view == res.s && sent == old(sent) + res.sent
      ensures !crashed ==> Pointed(p)
    {
      FatalCrashes(view, e, msg);
      if Unnamed(msg) { return true, null; }
      p := FindClient(e);
      if p != clientH {
        crashed := Revisit(e, msg, p);
      } else if msg.kind == TYPE_DISCOVER {
        FirstMessage(view, e, msg);
        p := Introduce(e, msg);
        crashed := false;
      } else {
        // The head holds no address: reading it for these messages is undefined.
        crashed := p.item.addr == null && (IsLeaseRequest(msg) || msg.kind == TYPE_RELEASE);
        Point(ListHead);
      }
    }

    /** A message of a known client. */
    method Revisit(e: Endpoint, msg: Msg, p: Cell<Client>) returns (crashed: bool)
      requires Valid() && DistinctIds(view.clients) && !Unnamed(msg)
      requires Known(view.clients, e) && Listed(p, IndexOf(view.clients, e))
      modifies Repr
      ensures Valid() && Repr == old(Repr)
      ensures crashed <==> Receive(old(view), e, msg) == Crash
      ensures !crashed ==> var res := Receive(old(view), e, msg); view == res.s && sent == old(sent) + res.sent
      ensures !crashed ==> Pointed(p)
    {
      ghost var was, freedWas, csWas, i := clients, freed, view.clients, IndexOf(view.clients, e);
      assert Accounted(made, was, freedWas) && SameIds(csWas, was) && On(p, clients);
      RespondFaithful(ttlMax, csWas[i], msg);
      Point(ClientOf(e));
      crashed := Handle(p, msg, i);
      if p in freed && !crashed {
        assert SameIds(view.clients, clients);
        GoneUnknown(p, was, freedWas, csWas);
      }
    }

    /** A datagram of the wrong length. */
    method OnStray(p: Cell?<Client>) returns (crashed: bool)
      requires Valid() && DistinctIds(view.clients) && Pointed(p)
      modifies Repr
      ensures Valid() && Repr == old(Repr)
      ensures crashed <==> Dangling(old(view))
      ensures !crashed ==> Stray(old(view)).Next?
      ensures !crashed ==> var res := Stray(old(view)); view == res.s && sent == old(sent) + res.sent
      ensures !crashed ==> Pointed(p)
    {
      DanglingCrashes(view);
      if p == null || p in freed { return true; }
      // The head is in no state of the table.
      if p == clientH {
        assert sent + [] == sent;
        return false;
      }
      ghost var was, freedWas, csWas, i := clients, freed, view.clients, IndexOf(view.clients, view.cur.e);
      Alive(p);
      assert Accounted(made, was, freedWas) && SameIds(csWas, was);
      var ret;
      ret, crashed := FsmFunc(p, UnknownMsg, i);
      if p in freed {
        assert SameIds(view.clients, clients);
        GoneUnknown(p, was, freedWas, csWas);
      }
    }

    method OnIdle(ghost p: Cell?<Client>)
      requires Looping(p)
      modifies Repr
      ensures Valid() && Repr == old(Repr) && Pointed(p)
      ensures view == Idle(old(view)) && sent == old(sent) + IdleSent(old(view))
    {
      ghost var was, freedWas, csWas := clients, freed, view.clients;
      assert Accounted(made, was, freedWas) && SameIds(csWas, was);
      if p != null && p in made { Alive(p); }
      Sweeps();
      if p != null && p in freed {
        assert SameIds(view.clients, clients);
        GoneUnknown(p, was, freedWas, csWas);
      }
    }

    method Sweeps()
      requires Valid()
      modifies Repr
      ensures Valid() && Repr == old(Repr) && NoneMade(old(made), old(freed))
      ensures view == Idle(old(view)) && sent == old(sent) + IdleSent(old(view))
    {
      ghost var s, v := sent, view;
      SweepAll(TtlSweep);
      ghost var w := view;
      SweepAll(ToutSweep);
      Associate(s, SweepSent(ttlMax, TtlSweep, v.clients), SweepSent(ttlMax, ToutSweep, w.clients));
    }

    /** The main loop can go on, its pointer standing at `p`. */
    ghost predicate Looping(p: Cell?<Client>)
      reads this, Repr
    {
      Valid() && DistinctIds(view.clients) && Pointed(p)
    }

    /** One turn of the main loop. */
    method Iterate(alarm: bool, input: Input, p: Cell?<Client>) returns (crashed: bool, next: Cell?<Client>)
      requires Looping(p)
      modifies Repr
      ensures Valid() && fresh(Repr - old(Repr))
      ensures crashed <==> Turn(old(view), alarm, input) == Crash
      ensures !crashed ==> var res := Turn(old(view), alarm, input); view == res.s && sent == old(sent) + res.sent
      ensures !crashed ==> Looping(next)
    {
      CrashCondition(view, alarm, input);
      if Turn(view, alarm, input).Next? { TurnKeepsDistinct(view, alarm, input); }
      next := p;
      if alarm { Countdown(p); }
      match input
      case Datagram(from, msg) =>
        FatalCrashes(view, from, msg);
        crashed, next := OnMessage(from, msg);
      case WrongLength =>
        DanglingCrashes(view);
        crashed := OnStray(p);
      case Nothing =>
        OnIdle(p);
        crashed := false;
    }

    method Countdown(ghost p: Cell?<Client>)
      requires Looping(p)
      modifies Repr
      ensures Looping(p) && Repr == old(Repr) && sent == old(sent)
      ensures view == old(view).(clients := CountDownAll(old(view).clients))
    {
      if view.cur.ClientOf? { SameIndex(view.clients, view.cur.e); }
      DecrementAll();
    }

    /** The main loop, over whatever the turns find, until one of them crashes. Its pointer starts
        out uninitialised, for which null stands. */
    method Serve(turns: seq<TurnInput>) returns (crashed: bool)
      requires Valid() && DistinctIds(view.clients) && view.cur.Wild?
      modifies Repr
      ensures Valid() && fresh(Repr - old(Repr))
      ensures crashed <==> Run(old(view), turns) == Crash
      ensures !crashed ==> view == Run(old(view), turns).s
    {
      crashed := false;
      var p: Cell?<Client> := null;
      for i := 0 to |turns|
        invariant Looping(p) && fresh(Repr - old(Repr)) && !crashed
        invariant Run(old(view), turns[..i]).Next? && view == Run(old(view), turns[..i]).s
      {
        RunOneMore(old(view), turns, i);
        crashed, p := Iterate(turns[i].alarm, turns[i].input, p);
        if crashed {
          CrashIsFinal(old(view), turns, i + 1);
          return;
        }
      }
      assert turns[..|turns|] == turns;
    }

    /** After the main loop: every client is released, restarting from the front each time. */
    method ReleaseAll()
      requires Valid()
      modifies Repr
      ensures Valid() && Repr == old(Repr) && view == Shutdown(old(view)) && sent == old(sent)
    {
      var p := First();
      assert view.pool + Addrs(view.clients) == old(view).pool + Addrs(old(view).clients);
      while p != clientH
        invariant Valid() && Repr == old(Repr) && Steady(old(view)) && sent == old(sent)
        invariant view.pool + Addrs(view.clients) == old(view).pool + Addrs(old(view).clients)
        invariant p == At(clientH, clients, 0)
        decreases |clients|
      {
        p := ReleaseFirst(p);
      }
    }

    method ReleaseFirst(p: Cell<Client>) returns (next: Cell<Client>)
      requires Valid() && Listed(p, 0)
      modifies Repr
      ensures Valid() && Repr == old(Repr) && Steady(old(view)) && sent == old(sent)
      ensures view.pool + Addrs(view.clients) == old(view).pool + Addrs(old(view).clients)
      ensures |clients| < |old(clients)| && next == At(clientH, clients, 0)
    {
      FirstReleased(view);
      Dropped(view, 0, []);
      var ret := ReleaseClient(p, 0);
      next := First();
    }

    lemma FirstReleased(s: Server)
      requires s.clients != []
      ensures var s' := Without(s, 0);
              s'.pool + Addrs(s'.clients) == s.pool + Addrs(s.clients) && |s'.clients| < |s.clients|
    {
      assert Addrs(s.clients) == [s.clients[0].addr] + Addrs(Without(s, 0).clients);
      Associate(s.pool, [s.clients[0].addr], Addrs(Without(s, 0).clients));
    }
  }

  lemma RunOneMore(s: Server, turns: seq<TurnInput>, i: nat)
    requires i < |turns| && Run(s, turns[..i]).Next?
    ensures Run(s, turns[..i + 1]) == Turn(Run(s, turns[..i]).s, turns[i].alarm, turns[i].input)
  {
    assert turns[..i + 1][..i] == turns[..i];
  }

  lemma {:induction false} CrashIsFinal(s: Server, turns: seq<TurnInput>, i: nat)
    requires i <= |turns| && Run(s, turns[..i]) == Crash
    ensures Run(s, turns) == Crash
    decreases |turns| - i
  {
    if i == |turns| {
      assert turns[..i] == turns;
    } else {
      assert turns[..i + 1][..i] == turns[..i];
      CrashIsFinal(s, turns, i + 1);
    }
  }

  /** Starts a server with the given configuration. */
  method Boot(ttlMax: nat, config: seq<Node>) returns (d: Daemon)
    ensures d.Valid() && fresh(d.Repr) && d.ttlMax == ttlMax && d.view == Start(ttlMax, config) && d.sent == []
  {
    var cells := AllocCells(config);
    d := new Daemon(ttlMax, cells);
    d.ReadConfig(config);
  }

  /** The whole program: until it crashes or is told to stop, it does what the runs say; stopped,
      it has every configured address back. */
  method RunServer(ttlMax: nat, config: seq<Node>, turns: seq<TurnInput>) returns (d: Daemon, crashed: bool)
    ensures crashed <==> Run(Start(ttlMax, config), turns) == Crash
    ensures !crashed ==> d.view == Shutdown(Run(Start(ttlMax, config), turns).s)
    ensures !crashed ==> multiset(d.view.pool) == multiset(config) && d.view.clients == []
  {
    d := Boot(ttlMax, config);
    crashed := d.Serve(turns);
    if !crashed {
      RunConserves(ttlMax, config, turns);
      d.ReleaseAll();
    }
  }
}
