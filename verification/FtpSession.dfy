/** What the file server answers to a stream of commands, and what the client makes of it. */
module FtpSession {
  import opened Seqs
  import opened FtpFrames

  /** A file; a file whose reading fails behind the given bytes; or a directory. */
  datatype Node = File(data: seq<byte>) | Faulty(data: seq<byte>) | Folder

  datatype Errno = Access | NoEntry | OtherError

  /** What listing a name yields: its lines, and whether reading the directory then fails. */
  datatype Listing = Complete(lines: seq<Payload>) | Broken(lines: seq<Payload>, errno: Errno)

  /** The part of the machine the server acts on: files and directories by absolute path, paths it
      may not open, what listings yield, the working and home directories, and how the system
      resolves a name from a working directory. */
  datatype World = World(nodes: map<Payload, Node>, denied: set<Payload>, listings: map<Payload, Listing>,
                         cwd: Payload, home: seq<byte>, resolve: (Payload, seq<byte>) -> Payload)

  datatype Served = Served(w: World, reply: seq<Frame>, rest: seq<byte>, quit: bool) | Undefined

  const DOT: Payload := [0x2e]
  const TILDE: byte := 0x7e

  function OkFrame(code: byte, d: Payload): Frame { Frame(TYPE_OK, code, d) }
  function SyntaxError(): Frame { Frame(TYPE_ERR_CMD, CMD_ERR_SYNTAX, []) }

  function ErrorFrame(e: Errno): Frame {
    match e
    case Access => Frame(TYPE_ERR_FILE, CMD_ERR_PERMISSION, [])
    case NoEntry => Frame(TYPE_ERR_FILE, CMD_ERR_NEGATION, [])
    case OtherError => Frame(TYPE_ERR_UNKWN, CMD_ERR_UNKWN, [])
  }

  /** The path a command means by a name. Only entering and listing expand the home directory. */
  function PathOf(w: World, kind: byte, name: Payload): Payload {
    if (kind == TYPE_CWD || kind == TYPE_LIST) && name != [] && name[0] == TILDE then
      w.resolve(w.cwd, w.home + name[1..])
    else
      w.resolve(w.cwd, name)
  }

  predicate CanOpen(w: World, path: Payload) {
    path !in w.denied && path in w.nodes
  }

  predicate IsFile(w: World, path: Payload) {
    CanOpen(w, path) && w.nodes[path].File?
  }

  predicate IsFolder(w: World, path: Payload) {
    CanOpen(w, path) && w.nodes[path].Folder?
  }

  /** Why a path cannot be opened as wanted: a directory cannot be written as a file, nor a file be
      entered. */
  function Trouble(w: World, path: Payload): Errno {
    if path in w.denied then Access else if path !in w.nodes then NoEntry else OtherError
  }

  function ListingOf(w: World, path: Payload): Listing {
    if !CanOpen(w, path) then Broken([], Trouble(w, path))
    else if path in w.listings then w.listings[path]
    else Complete([])
  }

  /** What can be read of a node that was opened as a file. */
  function Readable(n: Node): seq<byte> {
    if n.Folder? then [] else n.data
  }

  /** An announcement, unless there is nothing to announce, and the data frames. */
  function Announced(cs: seq<Payload>): seq<Frame> {
    (if cs == [] then [] else [OkFrame(CMD_OK_RETR, [])]) + DataFrames(cs)
  }

  function Trailer(l: Listing): seq<Frame> {
    (if l.Complete? then [] else [ErrorFrame(l.errno)]) + [LastFrame([])]
  }

  /** The frames of one transfer: nothing announces a transfer without data frames. */
  function Transfer(cs: seq<Payload>): seq<Frame> {
    Announced(cs) + [LastFrame([])]
  }

  /** The reply to a retrieval: where reading fails, an error stands in for the end frame. */
  function Retrieval(w: World, path: Payload): seq<Frame> {
    if !CanOpen(w, path) then [ErrorFrame(Trouble(w, path))]
    else if w.nodes[path].File? then Transfer(Chunks(w.nodes[path].data))
    else Announced(Chunks(Readable(w.nodes[path]))) + [ErrorFrame(OtherError)]
  }

  /** A path can be stored to unless it is refused or a directory. */
  predicate CanStore(w: World, path: Payload) {
    path !in w.denied && !IsFolder(w, path)
  }

  predicate TakesName(kind: byte) {
    kind == TYPE_CWD || kind == TYPE_RETR || kind == TYPE_STOR
  }

  /** The handling of one command whose name has been read. */
  function ServeName(w: World, kind: byte, name: Payload, rest: seq<byte>): (r: Served)
    ensures r.Served? && |r.rest| <= |rest|
  {
    var path := PathOf(w, kind, name);
    if kind == TYPE_CWD then
      if IsFolder(w, path) then Served(w.(cwd := path), [OkFrame(CMD_OK, [])], rest, false)
      else Served(w, [ErrorFrame(Trouble(w, path))], rest, false)
    else if kind == TYPE_LIST then
      var l := ListingOf(w, path);
      Served(w, Announced(l.lines) + Trailer(l), rest, false)
    else if kind == TYPE_RETR then
      Served(w, Retrieval(w, path), rest, false)
    else if CanStore(w, path) then
      var r := RecvFile(rest);
      Served(w.(nodes := w.nodes[path := File(r.written)]), [OkFrame(CMD_OK_STOR, [])], r.rest, false)
    else
      Served(w, [ErrorFrame(Trouble(w, path))], rest, false)
  }

  /** The handling of one command on stream `s`. Commands with an unknown type or code are skipped
      without their payload. A PWD with a payload has no defined outcome: it is read into null. */
  function Serve(w: World, s: seq<byte>): (r: Served)
    requires |s| >= HEADER_SIZE
    ensures r.Served? ==> |r.rest| < |s|
  {
    var kind, n, body := s[0], LengthField(s), s[HEADER_SIZE..];
    if s[1] != CMD_OK then Served(w, [], body, false)
    else if kind == TYPE_QUIT then Served(w, [], body, true)
    else if kind == TYPE_PWD then (if n != 0 then Undefined else Served(w, [OkFrame(CMD_OK, w.cwd)], body, false))
    else if TakesName(kind) && n == 0 then Served(w, [SyntaxError()], body, false)
    else if kind == TYPE_LIST && n == 0 then ServeName(w, kind, DOT, body)
    else if !TakesName(kind) && kind != TYPE_LIST then Served(w, [], body, false)
    else if |body| < n then Served(w, [], [], false)
    else ServeName(w, kind, body[..n], body[n..])
  }

  datatype Ended = Ended(w: World, sent: seq<Frame>, crashed: bool)

  /** A whole session: commands are served until the client quits or the stream ends. */
  function Session(w: World, s: seq<byte>): Ended
    decreases |s|
  {
    if |s| < HEADER_SIZE then Ended(w, [], false)
    else
      match Serve(w, s)
      case Undefined => Ended(w, [], true)
      case Served(w', reply, rest, quit) =>
        if quit then Ended(w', reply, false)
        else
          var e := Session(w', rest);
          e.(sent := reply + e.sent)
  }

  // ---------------------------------------------------------------- the client's view

  /** What a client does with the reply to a retrieval. */
  function TakeReply(s: seq<byte>): Received {
    if |s| < HEADER_SIZE then Received(false, [], [])
    else if s[0] == TYPE_OK && s[1] == CMD_OK_RETR then RecvFile(s[HEADER_SIZE..])
    else Received(false, [], s[HEADER_SIZE..])
  }

  function Command(kind: byte, name: Payload): Frame {
    Frame(kind, CMD_OK, name)
  }

  lemma ServeCommand(w: World, kind: byte, name: Payload, rest: seq<byte>)
    requires (TakesName(kind) || kind == TYPE_LIST) && name != []
    ensures Serve(w, Encode(Command(kind, name)) + rest) == ServeName(w, kind, name, rest)
  {
    DecodeEncode(Command(kind, name), rest);
    var s := Encode(Command(kind, name)) + rest;
    assert s[HEADER_SIZE..][|name|..] == rest;
  }

  /** Storing: the server ends up with the client's file under that path, having used up exactly
      the frames of the transfer. */
  lemma StoreKeepsFile(w: World, name: Payload, file: seq<byte>, rest: seq<byte>)
    requires name != [] && CanStore(w, PathOf(w, TYPE_STOR, name))
    ensures var s := Encode(Command(TYPE_STOR, name)) + (FileBytes(file) + rest);
            Serve(w, s) == Served(w.(nodes := w.nodes[PathOf(w, TYPE_STOR, name) := File(file)]),
                                  [OkFrame(CMD_OK_STOR, [])], rest, false)
  {
    var body := FileBytes(file) + rest;
    ServeCommand(w, TYPE_STOR, name, body);
    FileRoundTrip(file, rest);
  }

  /** What a client gets of a path, `more` following on the stream. */
  function Retrieved(w: World, path: Payload, more: seq<byte>): Received {
    if CanOpen(w, path) then
      var data := Readable(w.nodes[path]);
      Received(w.nodes[path].File? && data != [], data, more)
    else
      Received(false, [], more)
  }

  /** Retrieving: the client has what the server could read of the file. It accepts the transfer
      exactly when all of it could be read and it is not empty. In any case, whether the file could
      be opened or not, the client is left at the next frame. */
  lemma RetrieveGivesFile(w: World, name: Payload, more: seq<byte>, rest: seq<byte>)
    requires name != []
    ensures var r := Serve(w, Encode(Command(TYPE_RETR, name)) + rest);
            && r.Served? && r.rest == rest && r.w == w
            && TakeReply(EncodeAll(r.reply) + more) == Retrieved(w, PathOf(w, TYPE_RETR, name), more)
  {
    ServeCommand(w, TYPE_RETR, name, rest);
    RetrievalTaken(w, PathOf(w, TYPE_RETR, name), more);
  }

  lemma RetrievalTaken(w: World, path: Payload, more: seq<byte>)
    ensures TakeReply(EncodeAll(Retrieval(w, path)) + more) == Retrieved(w, path, more)
  {
    if !CanOpen(w, path) {
      var e := ErrorFrame(Trouble(w, path));
      EncodeOne(e);
      DecodeEncode(e, more);
    } else {
      var cs := Chunks(Readable(w.nodes[path]));
      JoinChunks(Readable(w.nodes[path]));
      if w.nodes[path].File? {
        TransferReceived(cs, more);
      } else {
        TornReceived(cs, ErrorFrame(OtherError), more);
      }
    }
  }

  lemma TransferReceived(cs: seq<Payload>, more: seq<byte>)
    ensures TakeReply(EncodeAll(Transfer(cs)) + more) == Received(cs != [], Join(cs), more)
  {
    var last := LastFrame([]);
    EncodeSplits(Announced(cs), [last]);
    EncodeOne(last);
    if cs == [] {
      assert Announced(cs) == [];
      DecodeEncode(last, more);
    } else {
      var ok, data := OkFrame(CMD_OK_RETR, []), EncodeAll(DataFrames(cs));
      EncodeSplits([ok], DataFrames(cs));
      EncodeOne(ok);
      Regroup(Encode(ok), data, Encode(last), more);
      DecodeEncode(ok, data + Encode(last) + more);
      RecvFrames(cs, [], more);
    }
  }

  /** A transfer that an error frame cuts off. */
  lemma TornReceived(cs: seq<Payload>, e: Frame, more: seq<byte>)
    requires e.kind != TYPE_DATA && e.kind != TYPE_OK && e.data == []
    ensures TakeReply(EncodeAll(Announced(cs) + [e]) + more) == Received(false, Join(cs), more)
  {
    EncodeSplits(Announced(cs), [e]);
    EncodeOne(e);
    if cs == [] {
      assert Announced(cs) == [];
      DecodeEncode(e, more);
    } else {
      var ok, data := OkFrame(CMD_OK_RETR, []), EncodeAll(DataFrames(cs));
      EncodeSplits([ok], DataFrames(cs));
      EncodeOne(ok);
      Regroup(Encode(ok), data, Encode(e), more);
      DecodeEncode(ok, data + Encode(e) + more);
      Associate(data, Encode(e), more);
      RecvTorn(cs, e, more);
    }
  }

  lemma RecvOther(f: Frame, rest: seq<byte>)
    requires f.kind != TYPE_DATA && f.data == []
    ensures RecvFile(Encode(f) + rest) == Received(false, [], rest)
  {
    DecodeEncode(f, rest);
  }

  /** Data frames that an error frame follows: the receiver stops behind the error frame. */
  lemma {:induction false} RecvTorn(cs: seq<Payload>, e: Frame, rest: seq<byte>)
    requires e.kind != TYPE_DATA && e.data == []
    ensures RecvFile(EncodeAll(DataFrames(cs)) + (Encode(e) + rest)) == Received(false, Join(cs), rest)
  {
    if cs == [] {
      RecvOther(e, rest);
      assert EncodeAll(DataFrames([])) + (Encode(e) + rest) == Encode(e) + rest;
    } else {
      var tail := EncodeAll(DataFrames(cs[1..])) + (Encode(e) + rest);
      RecvTorn(cs[1..], e, rest);
      RecvFrame(DataFrame(cs[0]), tail);
      assert DataFrames(cs) == [DataFrame(cs[0])] + DataFrames(cs[1..]);
      FlatMapCons(Encode, DataFrame(cs[0]), DataFrames(cs[1..]));
      Associate(Encode(DataFrame(cs[0])), EncodeAll(DataFrames(cs[1..])), Encode(e) + rest);
    }
  }

  /** Reply grammar: a retrieval of a readable non-empty file is answered, whatever came before,
      by one announcement, at least one data frame, and one end frame. */
  lemma RetrieveGrammar(w: World, name: Payload, rest: seq<byte>)
    requires name != []
    requires var path := PathOf(w, TYPE_RETR, name); IsFile(w, path) && w.nodes[path].data != []
    ensures var r := Serve(w, Encode(Command(TYPE_RETR, name)) + rest);
            && r.Served? && |r.reply| >= 3
            && (forall i :: 0 <= i < |r.reply| ==>
                  (r.reply[i] == OkFrame(CMD_OK_RETR, []) <==> i == 0)
                  && (r.reply[i] == LastFrame([]) <==> i == |r.reply| - 1)
                  && (r.reply[i].kind == TYPE_DATA && r.reply[i].code == CMD_DATA <==> 0 < i < |r.reply| - 1))
  {
    ServeCommand(w, TYPE_RETR, name, rest);
  }

  /** Storing a file and retrieving it in the same session gives the file back. */
  lemma StoreThenRetrieve(w: World, name: Payload, file: seq<byte>, rest: seq<byte>, more: seq<byte>)
    requires name != [] && CanStore(w, PathOf(w, TYPE_STOR, name))
    ensures var get := Encode(Command(TYPE_RETR, name)) + rest;
            var put := Encode(Command(TYPE_STOR, name)) + (FileBytes(file) + get);
            var r1 := Serve(w, put);
            r1.Served? && r1.rest == get &&
            var r2 := Serve(r1.w, r1.rest);
            r2.Served? && r2.rest == rest &&
            TakeReply(EncodeAll(r2.reply) + more) == Received(file != [], file, more)
  {
    var get := Encode(Command(TYPE_RETR, name)) + rest;
    StoreKeepsFile(w, name, file, get);
    RetrieveGivesFile(w.(nodes := w.nodes[PathOf(w, TYPE_STOR, name) := File(file)]), name, more, rest);
  }

  // ---------------------------------------------------------------- listings

  /** What a client makes of a listing: whether it came to the end, the lines it shows, and what it
      leaves on the stream. */
  datatype Shown = Shown(ok: bool, lines: seq<seq<byte>>, rest: seq<byte>)

  function Line(d: seq<byte>): seq<seq<byte>> {
    if d == [] then [] else [d]
  }

  /** The receiving loop for lines: empty ones are not shown. */
  function TakeLines(s: seq<byte>): (r: Shown)
    ensures |r.rest| <= |s|
    decreases |s|
  {
    if |s| < HEADER_SIZE then Shown(false, [], [])
    else if s[0] != TYPE_DATA then Shown(false, [], s[HEADER_SIZE..])
    else
      var n, body := LengthField(s), s[HEADER_SIZE..];
      if |body| < n then Shown(false, [], [])
      else if s[1] == CMD_DATA_LAST then Shown(true, Line(body[..n]), body[n..])
      else
        var r := TakeLines(body[n..]);
        r.(lines := Line(body[..n]) + r.lines)
  }

  /** The whole reply: the announcement may carry a line itself. */
  function TakeListing(s: seq<byte>): Shown {
    if |s| < HEADER_SIZE then Shown(false, [], [])
    else if s[0] == TYPE_OK && s[1] == CMD_OK_RETR then
      var n, body := LengthField(s), s[HEADER_SIZE..];
      if |body| < n then Shown(false, [], [])
      else
        var r := TakeLines(body[n..]);
        r.(lines := Line(body[..n]) + r.lines)
    else Shown(false, [], s[HEADER_SIZE..])
  }

  /** The lines of a listing that are shown. */
  function Printed(cs: seq<Payload>): seq<seq<byte>> {
    FlatMap(PrintedLine, cs)
  }

  function PrintedLine(d: Payload): seq<seq<byte>> { Line(d) }

  lemma LineTaken(d: Payload, rest: seq<byte>)
    ensures TakeLines(Encode(DataFrame(d)) + rest) == var r := TakeLines(rest); r.(lines := Line(d) + r.lines)
  {
    DecodeEncode(DataFrame(d), rest);
    var s := Encode(DataFrame(d)) + rest;
    assert s[HEADER_SIZE..][|d|..] == rest;
  }

  /** Lines, and then a frame that ends the loop: the end frame, or an error. */
  lemma {:induction false} LinesTaken(cs: seq<Payload>, f: Frame, rest: seq<byte>)
    requires f.data == [] && (f.kind == TYPE_DATA ==> f.code == CMD_DATA_LAST)
    ensures TakeLines(EncodeAll(DataFrames(cs)) + (Encode(f) + rest)) == Shown(f.kind == TYPE_DATA, Printed(cs), rest)
  {
    if cs == [] {
      DecodeEncode(f, rest);
      assert EncodeAll(DataFrames([])) + (Encode(f) + rest) == Encode(f) + rest;
      assert (Encode(f) + rest)[HEADER_SIZE..][0..] == rest;
    } else {
      LinesTaken(cs[1..], f, rest);
      LineTaken(cs[0], EncodeAll(DataFrames(cs[1..])) + (Encode(f) + rest));
      assert DataFrames(cs) == [DataFrame(cs[0])] + DataFrames(cs[1..]);
      FlatMapCons(Encode, DataFrame(cs[0]), DataFrames(cs[1..]));
      Associate(Encode(DataFrame(cs[0])), EncodeAll(DataFrames(cs[1..])), Encode(f) + rest);
    }
  }

  /** A listing as a client takes it, `more` following on the stream. */
  function Taken(l: Listing, more: seq<byte>): Shown {
    Shown(l.Complete? && l.lines != [], Printed(l.lines), if l.Complete? then more else Encode(LastFrame([])) + more)
  }

  /** What a client makes of the reply to a listing: it has the lines either way, but is in step
      with the server if and only if the listing was complete. After an error it has yet to read the
      end frame, and will take it for the reply to its next command. */
  lemma ListingInStep(w: World, name: Payload, rest: seq<byte>, more: seq<byte>)
    requires name != []
    ensures var l := ListingOf(w, PathOf(w, TYPE_LIST, name));
            var r := Serve(w, Encode(Command(TYPE_LIST, name)) + rest);
            && r.Served? && r.rest == rest && r.w == w
            && TakeListing(EncodeAll(r.reply) + more) == Taken(l, more)
  {
    ServeCommand(w, TYPE_LIST, name, rest);
    ListingTaken(ListingOf(w, PathOf(w, TYPE_LIST, name)), more);
  }

  lemma ListingTaken(l: Listing, more: seq<byte>)
    ensures TakeListing(EncodeAll(Announced(l.lines) + Trailer(l)) + more) == Taken(l, more)
  {
    var last := LastFrame([]);
    if l.Complete? {
      assert Trailer(l) == [last] + [];
      AnnouncedTaken(l.lines, last, [], more);
    } else {
      assert Trailer(l) == [ErrorFrame(l.errno)] + [last];
      AnnouncedTaken(l.lines, ErrorFrame(l.errno), [last], more);
      EncodeOne(last);
    }
  }

  /** Announced lines, a frame that ends them, and more frames. */
  lemma AnnouncedTaken(cs: seq<Payload>, f: Frame, fs: seq<Frame>, more: seq<byte>)
    requires f.data == [] && f.kind != TYPE_OK && (f.kind == TYPE_DATA ==> f.code == CMD_DATA_LAST)
    ensures TakeListing(EncodeAll(Announced(cs) + ([f] + fs)) + more) ==
              Shown(f.kind == TYPE_DATA && cs != [], Printed(cs), EncodeAll(fs) + more)
  {
    var ok, tail := OkFrame(CMD_OK_RETR, []), EncodeAll(fs) + more;
    AnnouncedBytes(cs, f, fs, more);
    if cs == [] {
      DecodeEncode(f, tail);
    } else {
      var body := EncodeAll(DataFrames(cs)) + (Encode(f) + tail);
      DecodeEncode(ok, body);
      assert (Encode(ok) + body)[HEADER_SIZE..][0..] == body;
      LinesTaken(cs, f, tail);
      assert [] + Printed(cs) == Printed(cs);
    }
  }

  lemma AnnouncedBytes(cs: seq<Payload>, f: Frame, fs: seq<Frame>, more: seq<byte>)
    ensures var tail := Encode(f) + (EncodeAll(fs) + more);
            EncodeAll(Announced(cs) + ([f] + fs)) + more ==
              if cs == [] then tail else Encode(OkFrame(CMD_OK_RETR, [])) + (EncodeAll(DataFrames(cs)) + tail)
  {
    var ok := OkFrame(CMD_OK_RETR, []);
    EncodeSplits(Announced(cs), [f] + fs);
    EncodeSplits([f], fs);
    EncodeOne(f);
    Associate(Encode(f), EncodeAll(fs), more);
    Associate(EncodeAll(Announced(cs)), Encode(f) + EncodeAll(fs), more);
    if cs == [] {
      assert Announced(cs) == [];
    } else {
      EncodeSplits([ok], DataFrames(cs));
      EncodeOne(ok);
      Associate(Encode(ok), EncodeAll(DataFrames(cs)), Encode(f) + (EncodeAll(fs) + more));
    }
  }

  // ---------------------------------------------------------------- the grammar of a session

  predicate IsAnnouncement(f: Frame) { f.kind == TYPE_OK && f.code == CMD_OK_RETR }
  predicate IsData(f: Frame) { f.kind == TYPE_DATA && f.code != CMD_DATA_LAST }
  predicate IsLast(f: Frame) { f.kind == TYPE_DATA && f.code == CMD_DATA_LAST }

  /** Data frames come only in unbroken blocks, each opened by an announcement and closed by an
      end frame, and an announcement always opens such a block. */
  ghost predicate Grammatical(fs: seq<Frame>) {
    forall i :: 0 <= i < |fs| ==> InPlace(fs, i)
  }

  ghost predicate InPlace(fs: seq<Frame>, i: nat)
    requires i < |fs|
  {
    && (IsAnnouncement(fs[i]) ==> i + 1 < |fs| && IsData(fs[i + 1]))
    && (IsData(fs[i]) ==>
          && i > 0 && (IsAnnouncement(fs[i - 1]) || IsData(fs[i - 1]))
          && i + 1 < |fs| && (IsData(fs[i + 1]) || IsLast(fs[i + 1])))
  }

  /** A data frame that an error frame follows. */
  ghost predicate TornAt(fs: seq<Frame>, i: nat) {
    i + 1 < |fs| && IsData(fs[i]) && !IsData(fs[i + 1]) && !IsLast(fs[i + 1])
  }

  ghost predicate Torn(fs: seq<Frame>) {
    exists i: nat :: TornAt(fs, i)
  }

  lemma TornIsUngrammatical(fs: seq<Frame>)
    requires Torn(fs)
    ensures !Grammatical(fs)
  {
    var i: nat :| TornAt(fs, i);
    assert !InPlace(fs, i);
  }

  /** Reading the directory fails behind its first entry. */
  predicate BreaksOff(l: Listing) {
    l.Broken? && l.lines != []
  }

  lemma ListingGrammatical(l: Listing)
    ensures var fs := Announced(l.lines) + Trailer(l);
            if BreaksOff(l) then Torn(fs) else Grammatical(fs)
  {
    var fs, n := Announced(l.lines) + Trailer(l), |l.lines|;
    if BreaksOff(l) {
      assert fs[n] == DataFrame(l.lines[n - 1]);
      assert TornAt(fs, n);
    } else if n == 0 {
      assert fs == Trailer(l);
    } else {
      CompleteGrammatical(l.lines);
    }
  }

  lemma CompleteGrammatical(cs: seq<Payload>)
    requires cs != []
    ensures Grammatical(Announced(cs) + Trailer(Complete(cs)))
  {
    var fs := Announced(cs) + Trailer(Complete(cs));
    forall i | 0 <= i < |fs| ensures InPlace(fs, i) {
      FrameAt(cs, i);
      if i > 0 { FrameAt(cs, i - 1); }
      if i + 1 < |fs| { FrameAt(cs, i + 1); }
    }
  }

  lemma FrameAt(cs: seq<Payload>, i: nat)
    requires cs != []
    ensures var fs := Announced(cs) + Trailer(Complete(cs));
            && |fs| == |cs| + 2
            && (i < |fs| ==>
                  fs[i] == if i == 0 then OkFrame(CMD_OK_RETR, [])
                           else if i <= |cs| then DataFrame(cs[i - 1])
                           else LastFrame([]))
  {
  }

  /** The command asks for a listing that breaks off, or for a file whose reading does. */
  predicate AsksTorn(w: World, kind: byte, name: Payload) {
    var path := PathOf(w, kind, name);
    || (kind == TYPE_LIST && BreaksOff(ListingOf(w, path)))
    || (kind == TYPE_RETR && CanOpen(w, path) && w.nodes[path].Faulty? && w.nodes[path].data != [])
  }

  /** The stream starts with such a command. */
  predicate StartsTorn(w: World, s: seq<byte>)
    requires |s| >= HEADER_SIZE
  {
    var n, body := LengthField(s), s[HEADER_SIZE..];
    && s[1] == CMD_OK && n <= |body| && (s[0] == TYPE_RETR ==> n > 0)
    && AsksTorn(w, s[0], if n == 0 then DOT else body[..n])
  }

  lemma RetrievalGrammatical(w: World, path: Payload)
    ensures var fs := Retrieval(w, path);
            if CanOpen(w, path) && w.nodes[path].Faulty? && w.nodes[path].data != [] then Torn(fs) else Grammatical(fs)
  {
    if CanOpen(w, path) {
      var cs := Chunks(Readable(w.nodes[path]));
      if w.nodes[path].File? {
        assert Transfer(cs) == Announced(cs) + Trailer(Complete(cs));
        ListingGrammatical(Complete(cs));
      } else if cs != [] {
        TornByError(cs, OtherError);
      }
    }
  }

  lemma TornByError(cs: seq<Payload>, e: Errno)
    requires cs != []
    ensures Torn(Announced(cs) + [ErrorFrame(e)])
  {
    var fs := Announced(cs) + [ErrorFrame(e)];
    assert fs[|cs|] == DataFrame(cs[|cs| - 1]);
    assert TornAt(fs, |cs|);
  }

  lemma NamedReply(w: World, kind: byte, name: Payload, rest: seq<byte>)
    ensures var reply := ServeName(w, kind, name, rest).reply;
            if AsksTorn(w, kind, name) then Torn(reply) else Grammatical(reply)
  {
    if kind == TYPE_LIST {
      ListingGrammatical(ListingOf(w, PathOf(w, kind, name)));
    } else if kind == TYPE_RETR {
      RetrievalGrammatical(w, PathOf(w, kind, name));
    }
  }

  /** The reply to one command is grammatical, unless it is a listing or a file that breaks off. */
  lemma ReplyGrammatical(w: World, s: seq<byte>)
    requires |s| >= HEADER_SIZE && Serve(w, s).Served?
    ensures if StartsTorn(w, s) then Torn(Serve(w, s).reply) else Grammatical(Serve(w, s).reply)
  {
    var n, body := LengthField(s), s[HEADER_SIZE..];
    if s[0] == TYPE_LIST && n == 0 {
      NamedReply(w, s[0], DOT, body);
    } else if n <= |body| {
      NamedReply(w, s[0], body[..n], body[n..]);
    }
  }

  lemma JoinGrammatical(a: seq<Frame>, b: seq<Frame>)
    ensures Grammatical(a) && Grammatical(b) ==> Grammatical(a + b)
    ensures Torn(a) || Torn(b) ==> Torn(a + b)
  {
    var fs := a + b;
    if Grammatical(a) && Grammatical(b) {
      forall i | 0 <= i < |fs| ensures InPlace(fs, i) {
        if i < |a| {
          assert InPlace(a, i);
        } else {
          assert InPlace(b, i - |a|);
          assert fs[i] == b[i - |a|];
        }
      }
    }
    if i: nat :| TornAt(a, i) {
      assert TornAt(fs, i);
    } else if i: nat :| TornAt(b, i) {
      assert TornAt(fs, |a| + i);
    }
  }

  /** Some command of the session asks for a listing or a file that breaks off. */
  predicate SomethingTorn(w: World, s: seq<byte>)
    decreases |s|
  {
    |s| >= HEADER_SIZE && Serve(w, s).Served? &&
    var r := Serve(w, s);
    StartsTorn(w, s) || (!r.quit && SomethingTorn(r.w, r.rest))
  }

  lemma {:induction false} SessionTorn(w: World, s: seq<byte>)
    ensures if SomethingTorn(w, s) then Torn(Session(w, s).sent) else Grammatical(Session(w, s).sent)
    decreases |s|
  {
    if |s| < HEADER_SIZE || Serve(w, s).Undefined? {
    } else {
      var r := Serve(w, s);
      ReplyGrammatical(w, s);
      if !r.quit {
        SessionTorn(r.w, r.rest);
        JoinGrammatical(r.reply, Session(r.w, r.rest).sent);
      }
    }
  }

  /** Whatever commands a session consists of, failed and unknown ones included, everything the
      server sends is grammatical, if and only if no listing breaks off behind its first line and
      no file behind its first block: then an error is sent where the data frames should end. */
  lemma SessionGrammatical(w: World, s: seq<byte>)
    ensures Grammatical(Session(w, s).sent) <==> !SomethingTorn(w, s)
  {
    SessionTorn(w, s);
    if SomethingTorn(w, s) {
      TornIsUngrammatical(Session(w, s).sent);
    }
  }
}
