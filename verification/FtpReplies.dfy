/** The server's reply to every command, frame by frame, in the values that go over the wire.
    Types: 2 PWD, 3 CWD, 4 LIST, 5 RETR, 6 STOR, 0x10 OK, 0x11 command error, 0x12 file error, 0x13
    other error, 0x20 data. Code 0 of data marks the end frame. */
module FtpReplies {
  import opened Seqs
  import opened FtpFrames
  import opened FtpSession

  /** The name as the command takes it: entering and listing replace a leading `~` by the home
      directory, fetching and storing do not. */
  function Resolved(w: World, kind: byte, name: Payload): Payload {
    if name != [] && name[0] == 0x7e && (kind == 3 || kind == 4) then w.resolve(w.cwd, w.home + name[1..])
    else w.resolve(w.cwd, name)
  }

  /** What is served of a command with a name, `rest` following it on the stream. */
  function Reply(w: World, kind: byte, name: Payload, rest: seq<byte>): Served {
    Serve(w, [kind, 0, |name| / 256, |name| % 256] + name + rest)
  }

  lemma Framing(kind: byte, name: Payload, rest: seq<byte>)
    ensures [kind, 0, |name| / 256, |name| % 256] + name + rest == Encode(Command(kind, name)) + rest
  {
  }

  /** A refused path. */
  lemma RefusedPath(w: World, kind: byte, name: Payload, rest: seq<byte>)
    requires name != [] && 3 <= kind <= 6 && Resolved(w, kind, name) in w.denied
    ensures Reply(w, kind, name, rest) ==
              Served(w, [Frame(0x12, 0x01, [])] + (if kind == 4 then [Frame(0x20, 0x00, [])] else []), rest, false)
  {
    Framing(kind, name, rest);
    ServeCommand(w, kind, name, rest);
  }

  /** A path where there is nothing. Only storing goes on, and creates a file. */
  lemma MissingPath(w: World, kind: byte, name: Payload, rest: seq<byte>)
    requires name != [] && 3 <= kind <= 5
    requires var path := Resolved(w, kind, name); path !in w.denied && path !in w.nodes
    ensures Reply(w, kind, name, rest) ==
              Served(w, [Frame(0x12, 0x00, [])] + (if kind == 4 then [Frame(0x20, 0x00, [])] else []), rest, false)
  {
    Framing(kind, name, rest);
    ServeCommand(w, kind, name, rest);
  }

  /** Entering a directory changes the working directory and nothing else; a file is not entered. */
  lemma EnteringReplied(w: World, name: Payload, rest: seq<byte>)
    requires name != []
    requires var path := Resolved(w, 3, name); path !in w.denied && path in w.nodes
    ensures var path := Resolved(w, 3, name);
            Reply(w, 3, name, rest) ==
              if w.nodes[path] == Folder then
                Served(World(w.nodes, w.denied, w.listings, path, w.home, w.resolve),
                       [Frame(0x10, 0x00, [])], rest, false)
              else
                Served(w, [Frame(0x13, 0x05, [])], rest, false)
  {
    Framing(3, name, rest);
    ServeCommand(w, 3, name, rest);
  }

  /** The lines as data frames behind one announcement, if there are any, and then the end. */
  function Sending(lines: seq<Payload>, end: seq<Frame>): seq<Frame> {
    (if lines == [] then [] else [Frame(0x10, 0x01, [])])
    + seq(|lines|, i requires 0 <= i < |lines| => Frame(0x20, 0x01, lines[i])) + end
  }

  /** A listing sends its lines in order, then the error it ended in, if it did, then an end frame. */
  lemma ListingReplied(w: World, name: Payload, rest: seq<byte>)
    requires name != []
    requires var path := Resolved(w, 4, name); path !in w.denied && path in w.nodes
    ensures var path := Resolved(w, 4, name);
            Reply(w, 4, name, rest) ==
              if path !in w.listings then Served(w, [Frame(0x20, 0x00, [])], rest, false)
              else
                match w.listings[path]
                case Complete(lines) => Served(w, Sending(lines, [Frame(0x20, 0x00, [])]), rest, false)
                case Broken(lines, Access) =>
                  Served(w, Sending(lines, [Frame(0x12, 0x01, []), Frame(0x20, 0x00, [])]), rest, false)
                case Broken(lines, NoEntry) =>
                  Served(w, Sending(lines, [Frame(0x12, 0x00, []), Frame(0x20, 0x00, [])]), rest, false)
                case Broken(lines, OtherError) =>
                  Served(w, Sending(lines, [Frame(0x13, 0x05, []), Frame(0x20, 0x00, [])]), rest, false)
  {
    Framing(4, name, rest);
    ServeCommand(w, 4, name, rest);
    var l := ListingOf(w, Resolved(w, 4, name));
    SendingIs(l.lines, Trailer(l));
  }

  lemma SendingIs(cs: seq<Payload>, end: seq<Frame>)
    ensures Sending(cs, end) == Announced(cs) + end
  {
  }

  /** Block `k` of a file: 1024 bytes, or what is left. */
  ghost predicate IsBlock(data: seq<byte>, k: nat, d: seq<byte>) {
    k * 1024 < |data| && d == data[k * 1024..if |data| < (k + 1) * 1024 then |data| else (k + 1) * 1024]
  }

  /** Exactly the blocks of the data, in order. */
  ghost predicate AreBlocks(data: seq<byte>, ds: seq<Payload>) {
    forall k: nat :: (k < |ds| <==> k * 1024 < |data|) && (k < |ds| ==> IsBlock(data, k, ds[k]))
  }

  /** Fetching sends the file block by block behind one announcement, and an end frame; where
      reading fails, an error in its place. A directory is opened, and cannot be read at all. */
  lemma FetchingReplied(w: World, name: Payload, rest: seq<byte>) returns (ds: seq<Payload>)
    requires name != []
    requires var path := Resolved(w, 5, name); path !in w.denied && path in w.nodes
    ensures var n := w.nodes[Resolved(w, 5, name)];
            && AreBlocks(if n == Folder then [] else n.data, ds)
            && Reply(w, 5, name, rest) ==
                 Served(w, Sending(ds, [if n.File? then Frame(0x20, 0x00, []) else Frame(0x13, 0x05, [])]), rest, false)
  {
    Framing(5, name, rest);
    ServeCommand(w, 5, name, rest);
    var n := w.nodes[Resolved(w, 5, name)];
    ds := Chunks(Readable(n));
    BlocksAre(Readable(n));
    SendingIs(ds, [if n.File? then Frame(0x20, 0x00, []) else Frame(0x13, 0x05, [])]);
  }

  lemma BlocksAre(data: seq<byte>)
    ensures AreBlocks(data, Chunks(data))
  {
    forall k: nat
      ensures (k < |Chunks(data)| <==> k * 1024 < |data|) && (k < |Chunks(data)| ==> IsBlock(data, k, Chunks(data)[k]))
    {
      ChunkAt(data, k);
    }
  }

  /** Storing is agreed to unless the path is refused or a directory. The file is then exactly what
      was received, and no other changes. */
  lemma StoringReplied(w: World, name: Payload, rest: seq<byte>)
    requires name != [] && Resolved(w, 6, name) !in w.denied
    ensures var path, r := Resolved(w, 6, name), RecvFile(rest);
            Reply(w, 6, name, rest) ==
              if path in w.nodes && w.nodes[path] == Folder then
                Served(w, [Frame(0x13, 0x05, [])], rest, false)
              else
                Served(World(w.nodes[path := File(r.written)], w.denied, w.listings, w.cwd, w.home, w.resolve),
                       [Frame(0x10, 0x02, [])], r.rest, false)
  {
    Framing(6, name, rest);
    ServeCommand(w, 6, name, rest);
  }

  /** Commands without a name: PWD tells the directory, QUIT ends the session without a reply, LIST
      lists `.`, and the others are errors of syntax. */
  lemma NamelessReplied(w: World, kind: byte, rest: seq<byte>)
    ensures var s := [kind, 0, 0, 0] + rest;
            Serve(w, s) ==
              if kind == 1 then Served(w, [], rest, true)
              else if kind == 2 then Served(w, [Frame(0x10, 0x00, w.cwd)], rest, false)
              else if kind == 4 then Reply(w, 4, [0x2e], rest)
              else if kind == 3 || kind == 5 || kind == 6 then Served(w, [Frame(0x11, 0x01, [])], rest, false)
              else Served(w, [], rest, false)
  {
    var s := [kind, 0, 0, 0] + rest;
    assert s[4..] == rest;
    Framing(4, [0x2e], rest);
    ServeCommand(w, 4, [0x2e], rest);
  }

  /** Anything that is no command of the server is skipped, its payload left on the stream; a PWD with
      a payload has no defined outcome. */
  lemma OthersReplied(w: World, s: seq<byte>)
    requires |s| >= 4
    ensures s[1] != 0 || s[0] == 0 || s[0] > 6 ==> Serve(w, s) == Served(w, [], s[4..], false)
    ensures s[0] == 2 && s[1] == 0 && (s[2] != 0 || s[3] != 0) ==> Serve(w, s) == Undefined
    ensures s[0] == 1 && s[1] == 0 ==> Serve(w, s) == Served(w, [], s[4..], true)
  {
  }

  /** A name that the stream cuts off ends the session's input without a reply. */
  lemma CutOffReplied(w: World, s: seq<byte>)
    requires |s| >= 4 && 3 <= s[0] <= 6 && s[1] == 0 && |s| - 4 < (s[2] as int) * 256 + s[3] as int
    ensures Serve(w, s) == Served(w, [], [], false)
  {
  }

  // ---------------------------------------------------------------- sessions

  /** A session ends where the stream does, even inside a header, and with the first QUIT; then it has
      not crashed, and nothing behind is served. A PWD with a payload crashes it. */
  lemma SessionEnds(w: World, s: seq<byte>)
    ensures |s| < 4 ==> Session(w, s) == Ended(w, [], false)
    ensures |s| >= 4 && s[0] == 1 && s[1] == 0 ==> Session(w, s) == Ended(w, [], false)
    ensures |s| >= 4 && s[0] == 2 && s[1] == 0 && (s[2] != 0 || s[3] != 0) ==> Session(w, s) == Ended(w, [], true)
  {
  }

  /** Otherwise the replies come one after the other, and each command finds the world the one before
      it left. */
  lemma SessionGoesOn(w: World, s: seq<byte>)
    requires |s| >= 4 && Serve(w, s).Served? && !Serve(w, s).quit
    ensures var r := Serve(w, s);
            var e := Session(r.w, r.rest);
            Session(w, s).w == e.w && Session(w, s).crashed == e.crashed && Session(w, s).sent == r.reply + e.sent
  {
  }

  // ---------------------------------------------------------------- what a client accepts

  /** A transfer is accepted only if it is announced and comes to its end. */
  lemma AcceptedReply(s: seq<byte>)
    ensures TakeReply(s).ok <==> |s| >= 4 && s[0] == 0x10 && s[1] == 0x01 && RecvFile(s[4..]).ok
    ensures TakeReply(s).ok ==> TakeReply(s) == RecvFile(s[4..])
  {
  }

  /** What is shown of a payload: nothing, if it is empty. */
  function ShownOf(d: Payload): seq<seq<byte>> {
    if |d| == 0 then [] else [d]
  }

  function ShownIn(f: Frame): seq<seq<byte>> { ShownOf(f.data) }

  /** The stream begins with the data frames `fs` and an end frame that carries `last`, and `r` is
      their payloads, in order, and what follows. */
  ghost predicate AreLines(s: seq<byte>, fs: seq<Frame>, last: Payload, r: Shown) {
    && (forall i :: 0 <= i < |fs| ==> fs[i].kind == 0x20 && fs[i].code != 0x00)
    && s == EncodeAll(fs) + Encode(Frame(0x20, 0x00, last)) + r.rest
    && r.lines == FlatMap(ShownIn, fs) + ShownOf(last)
  }

  /** Lines are accepted only as a whole. */
  lemma {:induction false} AcceptedLines(s: seq<byte>) returns (fs: seq<Frame>, last: Payload)
    requires TakeLines(s).ok
    ensures AreLines(s, fs, last, TakeLines(s))
    decreases |s|
  {
    var f, behind := FirstFrame(s);
    LineRead(f, behind);
    if f.code == 0x00 {
      fs, last := [], f.data;
      OnlyLine(f, behind);
    } else {
      fs, last := AcceptedLines(behind);
      LinePut(f, fs, last, behind, TakeLines(behind));
      fs := [f] + fs;
    }
  }

  lemma OnlyLine(f: Frame, behind: seq<byte>)
    requires f.kind == 0x20 && f.code == 0x00
    ensures AreLines(Encode(f) + behind, [], f.data, Shown(true, ShownOf(f.data), behind))
  {
    assert [] + Encode(f) == Encode(f);
  }

  lemma LinePut(f: Frame, fs: seq<Frame>, last: Payload, s: seq<byte>, r: Shown)
    requires f.kind == 0x20 && f.code != 0x00 && AreLines(s, fs, last, r)
    ensures AreLines(Encode(f) + s, [f] + fs, last, r.(lines := ShownOf(f.data) + r.lines))
  {
    FlatMapCons(Encode, f, fs);
    FlatMapCons(ShownIn, f, fs);
    Regroup(Encode(f), EncodeAll(fs), Encode(Frame(0x20, 0x00, last)), r.rest);
    Associate(ShownOf(f.data), FlatMap(ShownIn, fs), ShownOf(last));
  }

  lemma LineRead(f: Frame, behind: seq<byte>)
    requires f.kind == 0x20
    ensures TakeLines(Encode(f) + behind) ==
              if f.code == 0x00 then Shown(true, ShownOf(f.data), behind)
              else var r := TakeLines(behind); r.(lines := ShownOf(f.data) + r.lines)
  {
    DecodeEncode(f, behind);
    var body := (Encode(f) + behind)[HEADER_SIZE..];
    assert body[..|f.data|] == f.data && body[|f.data|..] == behind;
  }

  /** A listing is accepted only if it is announced and its lines come to their end; what the
      announcement carries is shown first. */
  lemma AcceptedListing(s: seq<byte>)
    ensures TakeListing(s).ok <==>
              && |s| >= 4 && s[0] == 0x10 && s[1] == 0x01
              && var n := (s[2] as int) * 256 + s[3] as int; |s| >= 4 + n && TakeLines(s[4 + n..]).ok
    ensures |s| >= 4 && s[0] == 0x10 && s[1] == 0x01 ==>
              var n := (s[2] as int) * 256 + s[3] as int;
              |s| >= 4 + n ==>
                var d, r := s[4..4 + n], TakeLines(s[4 + n..]);
                TakeListing(s) == Shown(r.ok, (if n == 0 then [] else [d]) + r.lines, r.rest)
  {
    if |s| >= 4 {
      var n := LengthField(s);
      if |s| >= 4 + n {
        assert s[4..][..n] == s[4..4 + n] && s[4..][n..] == s[4 + n..];
      }
    }
  }
}
