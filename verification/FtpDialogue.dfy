/** A client and the server in conversation: the client gives its commands one after the other and
    deals with the reply before it gives the next. */
module FtpDialogue {
  import opened Seqs
  import opened FtpFrames
  import opened FtpSession

  type Name = d: Payload | d != [] witness DOT

  /** The commands of the client. `failing` says that the client cannot read its file beyond the
      given bytes. */
  datatype Request =
    | Get(name: Name)
    | Put(name: Name, file: seq<byte>, failing: bool)
    | List(name: Name)
    | Cd(name: Name)
    | Pwd

  function Kind(r: Request): byte {
    match r
    case Get(_) => TYPE_RETR
    case Put(_, _, _) => TYPE_STOR
    case List(_) => TYPE_LIST
    case Cd(_) => TYPE_CWD
    case Pwd => TYPE_PWD
  }

  function RequestFrame(r: Request): Frame {
    Command(Kind(r), if r.Pwd? then [] else r.name)
  }

  // ---------------------------------------------------------------- the client's half

  predicate Agreed(s: seq<byte>) {
    |s| >= HEADER_SIZE && s[0] == TYPE_OK && s[1] == CMD_OK_STOR
  }

  /** What the client sends behind its request when `s` is what it hears: a file once the server
      agrees, without an end frame if reading it fails. */
  function Body(r: Request, s: seq<byte>): seq<byte> {
    if !r.Put? || !Agreed(s) then []
    else if r.failing then EncodeAll(DataFrames(Chunks(r.file)))
    else FileBytes(r.file)
  }

  function BehindHeader(s: seq<byte>): seq<byte> {
    if |s| < HEADER_SIZE then [] else s[HEADER_SIZE..]
  }

  function BehindFrame(s: seq<byte>): seq<byte> {
    if |s| < HEADER_SIZE || |s| < HEADER_SIZE + LengthField(s) then [] else s[HEADER_SIZE + LengthField(s)..]
  }

  /** What the client leaves of `s` on the stream after a command. */
  function ClientRest(r: Request, s: seq<byte>): seq<byte> {
    match r
    case Get(_) => TakeReply(s).rest
    case List(_) => TakeListing(s).rest
    case Pwd => if |s| >= HEADER_SIZE && s[0] == TYPE_OK && s[1] == CMD_OK then BehindFrame(s) else BehindHeader(s)
    case _ => BehindHeader(s)
  }

  // ---------------------------------------------------------------- one command

  /** The server agrees to store what the client puts. */
  predicate Stores(w: World, r: Request) {
    r.Put? && CanStore(w, PathOf(w, TYPE_STOR, r.name))
  }

  /** Where a command leaves the two sides: the bytes that the server and the client have not read,
      and whether the server still waits for frames of a file. */
  datatype Conn = Conn(w: World, unserved: seq<byte>, unheard: seq<byte>, waiting: bool)

  predicate AtRest(c: Conn) {
    c.unserved == [] && c.unheard == [] && !c.waiting
  }

  lemma RequestServed(w: World, r: Request, rest: seq<byte>)
    ensures Serve(w, Encode(RequestFrame(r)) + rest) ==
              if r.Pwd? then Served(w, [OkFrame(CMD_OK, w.cwd)], rest, false) else ServeName(w, Kind(r), r.name, rest)
  {
    if r.Pwd? {
      DecodeEncode(RequestFrame(r), rest);
    } else {
      ServeCommand(w, Kind(r), r.name, rest);
    }
  }

  /** What the server hears of a command: the request, and what the client sends on hearing the
      server's reply to it. */
  function Spoken(w: World, r: Request): seq<byte> {
    var request := Encode(RequestFrame(r));
    RequestServed(w, r, []);
    assert request + [] == request;
    request + Body(r, EncodeAll(Serve(w, request).reply))
  }

  /** One command, from a quiet connection on. */
  function Exchange(w: World, r: Request): Conn {
    var body := Spoken(w, r)[|Encode(RequestFrame(r))|..];
    RequestServed(w, r, body);
    var served := Serve(w, Spoken(w, r));
    Conn(served.w, served.rest, ClientRest(r, EncodeAll(served.reply)), Stores(w, r) && !RecvFile(body).ok)
  }

  /** A listing that is asked for is complete, and a file the server has agreed to store can be
      read. */
  predicate Clean(w: World, r: Request) {
    && (r.List? ==> ListingOf(w, PathOf(w, TYPE_LIST, r.name)).Complete?)
    && (Stores(w, r) ==> !r.failing)
  }

  function Reply(w: World, r: Request): seq<Frame> {
    match r
    case Get(name) => Retrieval(w, PathOf(w, TYPE_RETR, name))
    case Put(name, _, _) =>
      [if Stores(w, r) then OkFrame(CMD_OK_STOR, []) else ErrorFrame(Trouble(w, PathOf(w, TYPE_STOR, name)))]
    case List(name) =>
      var l := ListingOf(w, PathOf(w, TYPE_LIST, name));
      Announced(l.lines) + Trailer(l)
    case Cd(name) =>
      var path := PathOf(w, TYPE_CWD, name);
      [if IsFolder(w, path) then OkFrame(CMD_OK, []) else ErrorFrame(Trouble(w, path))]
    case Pwd => [OkFrame(CMD_OK, w.cwd)]
  }

  function After(w: World, r: Request): World {
    if Stores(w, r) then
      w.(nodes := w.nodes[PathOf(w, TYPE_STOR, r.name) := File(r.file)])
    else if r.Cd? && IsFolder(w, PathOf(w, TYPE_CWD, r.name)) then
      w.(cwd := PathOf(w, TYPE_CWD, r.name))
    else
      w
  }

  /** The server's part: a reply that what follows on the stream has no influence on. */
  lemma RequestAnswered(w: World, r: Request, rest: seq<byte>)
    ensures var served := Serve(w, Encode(RequestFrame(r)) + rest);
            && served.Served? && served.reply == Reply(w, r) && !served.quit
            && (if Stores(w, r) then served.rest == RecvFile(rest).rest
                else served.rest == rest && served.w == After(w, r))
            && (Stores(w, r) && RecvFile(rest).written == r.file ==> served.w == After(w, r))
  {
    RequestServed(w, r, rest);
  }

  lemma OneFrameAgrees(f: Frame)
    ensures Agreed(EncodeAll([f])) <==> f.kind == TYPE_OK && f.code == CMD_OK_STOR
  {
    EncodeOne(f);
  }

  /** The client's part: it sends the file if and only if the server is going to store it. */
  lemma WhatIsSpoken(w: World, r: Request)
    ensures Spoken(w, r) == Encode(RequestFrame(r)) +
              if !Stores(w, r) then []
              else if r.failing then EncodeAll(DataFrames(Chunks(r.file)))
              else FileBytes(r.file)
  {
    RequestAnswered(w, r, []);
    var request := Encode(RequestFrame(r));
    assert request + [] == request;
    if r.Put? {
      OneFrameAgrees(Reply(w, r)[0]);
    }
  }

  /** The client reads its reply to the end, whatever follows, unless it is a listing that is not
      complete. */
  lemma ReplyTaken(w: World, r: Request, more: seq<byte>)
    ensures ClientRest(r, EncodeAll(Reply(w, r)) + more) ==
              if r.List? && !Clean(w, r) then Encode(LastFrame([])) + more else more
  {
    match r
    case Get(name) => RetrievalTaken(w, PathOf(w, TYPE_RETR, name), more);
    case List(name) => ListingTaken(ListingOf(w, PathOf(w, TYPE_LIST, name)), more);
    case _ =>
      EncodeOne(Reply(w, r)[0]);
      DecodeEncode(Reply(w, r)[0], more);
  }

  /** Data frames that nothing follows leave the receiver waiting. */
  lemma {:induction false} CutOff(cs: seq<Payload>)
    ensures RecvFile(EncodeAll(DataFrames(cs))) == Received(false, Join(cs), [])
  {
    if cs == [] {
      assert DataFrames(cs) == [];
    } else {
      CutOff(cs[1..]);
      RecvFrame(DataFrame(cs[0]), EncodeAll(DataFrames(cs[1..])));
      assert DataFrames(cs) == [DataFrame(cs[0])] + DataFrames(cs[1..]);
      FlatMapCons(Encode, DataFrame(cs[0]), DataFrames(cs[1..]));
    }
  }

  lemma FileReceived(file: seq<byte>)
    ensures RecvFile(FileBytes(file)) == Received(true, file, [])
  {
    FileRoundTrip(file, []);
    assert FileBytes(file) + [] == FileBytes(file);
  }

  /** A command leaves both sides at rest, nothing unread and nothing awaited, if and only if
      it is clean. */
  lemma ExchangeAtRest(w: World, r: Request)
    ensures AtRest(Exchange(w, r)) <==> Clean(w, r)
    ensures Clean(w, r) ==> Exchange(w, r).w == After(w, r)
  {
    var request := Encode(RequestFrame(r));
    WhatIsSpoken(w, r);
    var body := Spoken(w, r)[|request|..];
    assert Spoken(w, r) == request + body;
    RequestAnswered(w, r, body);
    ReplyTaken(w, r, []);
    assert EncodeAll(Reply(w, r)) + [] == EncodeAll(Reply(w, r));
    if Stores(w, r) {
      CutOff(Chunks(r.file));
      FileReceived(r.file);
    }
  }

  // ---------------------------------------------------------------- any sequence of commands

  /** Both sides are at rest after each command. */
  predicate InStep(w: World, rs: seq<Request>)
    decreases |rs|
  {
    rs == [] || (AtRest(Exchange(w, rs[0])) && InStep(Exchange(w, rs[0]).w, rs[1..]))
  }

  /** Each command is clean in the world the commands before it lead to. */
  predicate AllClean(w: World, rs: seq<Request>)
    decreases |rs|
  {
    rs == [] || (Clean(w, rs[0]) && AllClean(After(w, rs[0]), rs[1..]))
  }

  /** Whatever commands a client gives, refused and failing ones included, client and server are in
      step after each of them, if and only if every listing is complete and every file that is
      being put can be read. */
  lemma {:induction false} DialogueInStep(w: World, rs: seq<Request>)
    ensures InStep(w, rs) <==> AllClean(w, rs)
    decreases |rs|
  {
    if rs == [] {
    } else {
      ExchangeAtRest(w, rs[0]);
      if Clean(w, rs[0]) {
        DialogueInStep(After(w, rs[0]), rs[1..]);
      }
    }
  }

  function SpokenAll(w: World, rs: seq<Request>): seq<byte>
    decreases |rs|
  {
    if rs == [] then [] else Spoken(w, rs[0]) + SpokenAll(Exchange(w, rs[0]).w, rs[1..])
  }

  function Replies(w: World, rs: seq<Request>): seq<Frame>
    decreases |rs|
  {
    if rs == [] then [] else Reply(w, rs[0]) + Replies(After(w, rs[0]), rs[1..])
  }

  function AfterAll(w: World, rs: seq<Request>): World
    decreases |rs|
  {
    if rs == [] then w else AfterAll(After(w, rs[0]), rs[1..])
  }

  lemma ServeSpoken(w: World, r: Request, rest: seq<byte>)
    requires Clean(w, r)
    ensures Serve(w, Spoken(w, r) + rest) == Served(After(w, r), Reply(w, r), rest, false)
  {
    var request := Encode(RequestFrame(r));
    WhatIsSpoken(w, r);
    if Stores(w, r) {
      FileRoundTrip(r.file, rest);
      Associate(request, FileBytes(r.file), rest);
      RequestAnswered(w, r, FileBytes(r.file) + rest);
    } else {
      assert Spoken(w, r) == request;
      RequestAnswered(w, r, rest);
    }
  }

  /** A dialogue in step is a session of the server: it takes the client's stream command by
      command, answers each, and ends where the client's commands lead. */
  lemma {:induction false} DialogueIsSession(w: World, rs: seq<Request>)
    requires InStep(w, rs)
    ensures Session(w, SpokenAll(w, rs)) == Ended(AfterAll(w, rs), Replies(w, rs), false)
    decreases |rs|
  {
    if rs == [] {
    } else {
      var w' := After(w, rs[0]);
      ExchangeAtRest(w, rs[0]);
      var more := SpokenAll(w', rs[1..]);
      ServeSpoken(w, rs[0], more);
      DialogueIsSession(w', rs[1..]);
      SessionStep(w, Spoken(w, rs[0]) + more, Served(w', Reply(w, rs[0]), more, false));
    }
  }

  lemma SessionStep(w: World, s: seq<byte>, r: Served)
    requires |s| >= HEADER_SIZE && r.Served? && Serve(w, s) == r && !r.quit
    ensures var e := Session(r.w, r.rest); Session(w, s) == e.(sent := r.reply + e.sent)
  {
  }

  // ---------------------------------------------------------------- what is put can be got

  /** Some command stores to the path. */
  predicate Overwrites(w: World, rs: seq<Request>, path: Payload)
    decreases |rs|
  {
    rs != [] &&
    ((Stores(w, rs[0]) && PathOf(w, TYPE_STOR, rs[0].name) == path) || Overwrites(After(w, rs[0]), rs[1..], path))
  }

  lemma {:induction false} NodeKept(w: World, rs: seq<Request>, path: Payload)
    requires path in w.nodes && !Overwrites(w, rs, path)
    ensures AfterAll(w, rs).denied == w.denied
    ensures path in AfterAll(w, rs).nodes && AfterAll(w, rs).nodes[path] == w.nodes[path]
    decreases |rs|
  {
    if rs == [] {
    } else {
      NodeKept(After(w, rs[0]), rs[1..], path);
    }
  }

  /** What a client puts is what any later `get` of the same path gives it, over any commands in
      between that do not store to that path, moves to other directories included. */
  lemma PutThenGet(w: World, put: Request, rs: seq<Request>, name: Name, more: seq<byte>)
    requires Stores(w, put) && InStep(w, [put] + rs)
    requires var path := PathOf(w, TYPE_STOR, put.name);
             !Overwrites(After(w, put), rs, path) && PathOf(AfterAll(After(w, put), rs), TYPE_RETR, name) == path
    ensures var w' := AfterAll(After(w, put), rs);
            && Session(w, SpokenAll(w, [put] + rs)).w == w'
            && TakeReply(EncodeAll(Reply(w', Get(name))) + more) == Received(put.file != [], put.file, more)
  {
    var path := PathOf(w, TYPE_STOR, put.name);
    DialogueIsSession(w, [put] + rs);
    NodeKept(After(w, put), rs, path);
    RetrievalTaken(AfterAll(After(w, put), rs), path, more);
  }
}
