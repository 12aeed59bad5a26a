/** The code that moves frames: filling a buffer from the socket, sending messages and files, and
    the server's and the client's commands. */
module FtpPeer {
  import opened Seqs
  import opened FtpFrames
  import opened FtpSession
  import opened FtpDialogue

  class Peer {
    /** Whether this side announces a transfer before its first data frame. */
    const server: bool
    /** What the other side has sent and this side has not yet read. */
    var incoming: seq<byte>
    /** What this side has sent, and the frames it consists of. */
    var outgoing: seq<byte>
    ghost var sent: seq<Frame>
    var firstData: bool
    /** The contents of the file a transfer is being written to. */
    var disk: seq<byte>
    /** The lines of a listing shown so far. */
    var shown: seq<seq<byte>>
    var world: World

    constructor (server: bool, incoming: seq<byte>, world: World)
      ensures this.server == server && this.incoming == incoming && this.world == world
      ensures Framed() && firstData && sent == [] && disk == [] && shown == []
    {
      this.server, this.incoming, this.world := server, incoming, world;
      firstData, outgoing, sent, disk, shown := true, [], [], [], [];
    }

    // ---------------------------------------------------------------- receiving

    /** The socket delivers some of the bytes asked for, at least one unless none is left. */
    method Recv(buf: array<byte>, at: nat, max: nat) returns (n: nat)
      requires at + max <= buf.Length && max > 0
      modifies this`incoming, buf
      ensures n <= max && n <= |old(incoming)| && (n == 0 <==> old(incoming) == [])
      ensures incoming == old(incoming)[n..]
      ensures buf[..at + n] == old(buf[..at]) + old(incoming)[..n]
    {
      if incoming == [] { return 0; }
      n :| 1 <= n <= max && n <= |incoming|;
      var old_ := incoming;
      for i := 0 to n
        invariant incoming == old_
        invariant buf[..at] == old(buf[..at])
        invariant forall j :: 0 <= j < i ==> buf[at + j] == old_[j]
      {
        buf[at + i] := incoming[i];
      }
      assert buf[at..at + n] == old_[..n];
      assert buf[..at + n] == buf[..at] + buf[at..at + n];
      incoming := incoming[n..];
    }

    /** Reads exactly `len` bytes, however the socket splits them, or fails at the end of the
        stream. */
    method RecvMsg(buf: array<byte>, len: nat) returns (ret: int)
      requires len <= buf.Length
      modifies this`incoming, buf
      ensures ret == if |old(incoming)| >= len then len else -1
      ensures ret >= 0 ==> buf[..len] == old(incoming)[..len] && incoming == old(incoming)[len..]
      ensures ret < 0 ==> incoming == []
    {
      var cnt := 0;
      while cnt < len
        invariant cnt <= len && cnt <= |old(incoming)|
        invariant incoming == old(incoming)[cnt..]
        invariant buf[..cnt] == old(incoming)[..cnt]
      {
        var n := Recv(buf, cnt, len - cnt);
        if n == 0 { return -1; }
        assert old(incoming)[..cnt] + old(incoming)[cnt..][..n] == old(incoming)[..cnt + n];
        cnt := cnt + n;
      }
      return cnt;
    }

    /** The payload of one frame, in blocks of at most READBLK bytes, written as they come. */
    method RecvPayload(len: nat) returns (ok: bool)
      modifies this`incoming, this`disk
      ensures ok <==> |old(incoming)| >= len
      ensures ok ==> incoming == old(incoming)[len..] && disk == old(disk) + old(incoming)[..len]
      ensures !ok ==> incoming == [] && disk == old(disk) + old(incoming)[..|old(incoming)| / READBLK * READBLK]
    {
      var buf := new byte[READBLK];
      var remain := len;
      ghost var done := 0;
      while remain > 0
        invariant done + remain == len && done <= len && done <= |old(incoming)| && (remain > 0 ==> done % READBLK == 0)
        invariant incoming == old(incoming)[done..]
        invariant disk == old(disk) + old(incoming)[..done]
      {
        var readlen := if remain > READBLK then READBLK else remain;
        var ret := RecvMsg(buf, readlen);
        if ret < 0 {
          BlocksBelow(done, |old(incoming)|);
          return false;
        }
        disk := disk + buf[..ret];
        assert old(incoming)[..done] + old(incoming)[done..][..ret] == old(incoming)[..done + ret];
        remain := remain - ret;
        done := done + ret;
      }
      return true;
    }

    lemma BlocksBelow(done: nat, size: nat)
      requires done % READBLK == 0 && done <= size < done + READBLK
      ensures size / READBLK * READBLK == done
    {
    }

    /** One frame of a transfer: `done` once the transfer is over, `ok` telling how. */
    method RecvOne() returns (done: bool, ok: bool)
      modifies this`incoming, this`disk
      ensures done ==> var r := FtpFrames.RecvFile(old(incoming));
                       ok == r.ok && incoming == r.rest && disk == old(disk) + r.written
      ensures !done ==> var r0, r := FtpFrames.RecvFile(old(incoming)), FtpFrames.RecvFile(incoming);
                        && |incoming| < |old(incoming)| && r0.ok == r.ok && r0.rest == r.rest
                        && disk + r.written == old(disk) + r0.written
    {
      var got, kind, code, remain := RecvHeader();
      if !got || kind != TYPE_DATA { return true, false; }
      if remain > 0 {
        got := RecvPayload(remain);
        if !got { return true, false; }
      }
      if code == CMD_DATA_LAST { return true, true; }
      ghost var body := old(incoming)[HEADER_SIZE..];
      Associate(old(disk), body[..remain], FtpFrames.RecvFile(body[remain..]).written);
      return false, false;
    }

    /** Receives frames until the one marked last, and writes their payloads. */
    method RecvFile() returns (ok: bool)
      modifies this`incoming, this`disk
      ensures var r := FtpFrames.RecvFile(old(incoming));
              ok == r.ok && incoming == r.rest && disk == old(disk) + r.written
    {
      while true
        invariant var r, r0 := FtpFrames.RecvFile(incoming), FtpFrames.RecvFile(old(incoming));
                  r0.ok == r.ok && r0.rest == r.rest && disk + r.written == old(disk) + r0.written
        decreases |incoming|
      {
        var done;
        done, ok := RecvOne();
        if done { return; }
      }
    }

    // ---------------------------------------------------------------- sending

    /** The bytes on the stream are those of the frames in `sent`. */
    ghost predicate Framed()
      reads this
    {
      outgoing == EncodeAll(sent)
    }

    /** Builds one message, the length in network byte order. */
    method BuildMsg(kind: byte, code: byte, data: Payload) returns (msg: array<byte>)
      ensures fresh(msg) && msg[..] == Encode(Frame(kind, code, data))
    {
      msg := new byte[HEADER_SIZE + |data|];
      msg[0], msg[1] := kind, code;
      msg[2], msg[3] := |data| / 256, |data| % 256;
      for i := 0 to |data|
        invariant msg[..HEADER_SIZE] == [kind, code, |data| / 256, |data| % 256]
        invariant msg[HEADER_SIZE..HEADER_SIZE + i] == data[..i]
      {
        msg[HEADER_SIZE + i] := data[i];
      }
      assert msg[..] == msg[..HEADER_SIZE] + msg[HEADER_SIZE..HEADER_SIZE + |data|];
      assert data[..|data|] == data;
    }

    /** Sends one message. Any frame that is not a data frame inside a transfer re-arms the
        announcement. */
    method SendMsg(kind: byte, code: byte, data: Payload)
      requires Framed()
      modifies this`outgoing, this`sent, this`firstData
      ensures Framed() && sent == old(sent) + [Frame(kind, code, data)]
      ensures outgoing == old(outgoing) + Encode(Frame(kind, code, data))
      ensures firstData == (old(firstData) || kind != TYPE_DATA || code == CMD_DATA_LAST)
    {
      if kind != TYPE_DATA || code == CMD_DATA_LAST { firstData := true; }
      var msg := BuildMsg(kind, code, data);
      ghost var f := Frame(kind, code, data);
      EncodeSplits(sent, [f]);
      EncodeOne(f);
      outgoing := outgoing + msg[..];
      sent := sent + [f];
    }

    ghost function Announcement(announce: bool): seq<Frame> {
      if announce then [OkFrame(CMD_OK_RETR, [])] else []
    }

    method SendData(data: Payload)
      requires Framed()
      modifies this`outgoing, this`sent, this`firstData
      ensures Framed() && sent == old(sent) + Announcement(server && old(firstData)) + [DataFrame(data)] && !firstData
    {
      if firstData {
        if server { SendMsg(TYPE_OK, CMD_OK_RETR, []); }
        firstData := false;
      }
      SendMsg(TYPE_DATA, CMD_DATA, data);
    }

    /** The frames of `cs` up to the k-th are out, announced if `announce`, after those of `s`. */
    ghost predicate SentUpTo(s: seq<Frame>, announce: bool, cs: seq<Payload>, k: nat)
      requires k <= |cs|
      reads this
    {
      && Framed() && sent == s + (Announcement(announce && k > 0) + DataFrames(cs[..k]))
      && (k > 0 ==> !firstData) && (k == 0 ==> announce == (server && firstData))
    }

    method SendNext(d: Payload, ghost s: seq<Frame>, ghost announce: bool, ghost cs: seq<Payload>, ghost k: nat)
      requires k < |cs| && d == cs[k] && SentUpTo(s, announce, cs, k)
      modifies this`outgoing, this`sent, this`firstData
      ensures SentUpTo(s, announce, cs, k + 1)
    {
      ghost var before := sent;
      SendData(d);
      NextData(s, Announcement(announce), k > 0, cs[..k], d, before);
      assert cs[..k + 1] == cs[..k] + [d];
      assert DataFrames(cs[..k + 1]) == DataFrames(cs[..k]) + [DataFrame(d)];
    }

    lemma NextData(s: seq<Frame>, ann: seq<Frame>, later: bool, cs: seq<Payload>, d: Payload, before: seq<Frame>)
      requires later <==> cs != []
      requires before == s + ((if later then ann else []) + DataFrames(cs))
      ensures before + (if later then [] else ann) + [DataFrame(d)] == s + (ann + (DataFrames(cs) + [DataFrame(d)]))
    {
    }

    /** Sends a file in blocks, each a data frame, the announcement going out before the first.
        `failing` says that a read fails behind the bytes of `file`. */
    method SendFile(file: seq<byte>, failing: bool) returns (ok: bool)
      requires Framed()
      modifies this`outgoing, this`sent, this`firstData
      ensures Framed() && ok == !failing
      ensures var fs := Announcement(server && old(firstData) && file != []) + DataFrames(Chunks(file));
              sent == old(sent) + fs && outgoing == old(outgoing) + EncodeAll(fs)
      ensures firstData == (old(firstData) && file == [])
    {
      EncodeSplits(sent, Announcement(server && firstData && file != []) + DataFrames(Chunks(file)));
      ok := SendBlocks(file, failing);
    }

    method SendBlocks(file: seq<byte>, failing: bool) returns (ok: bool)
      requires Framed()
      modifies this`outgoing, this`sent, this`firstData
      ensures Framed() && ok == !failing
      ensures sent == old(sent) + (Announcement(server && old(firstData) && file != []) + DataFrames(Chunks(file)))
      ensures firstData == (old(firstData) && file == [])
    {
      ghost var k, announce := 0, server && firstData;
      assert SentUpTo(sent, announce, Chunks(file), 0);
      var pos := 0;
      ok := true;
      while ok && (pos < |file| || failing)
        invariant AtBlock(file, pos, k) && SentUpTo(old(sent), announce, Chunks(file), k)
        invariant firstData == (old(firstData) && k == 0)
        invariant !ok ==> failing && pos == |file|
        decreases |file| - pos, ok
      {
        if pos == |file| {
          ok := false;
        } else {
          pos := SendBlock(file, pos, old(sent), announce, k);
          k := k + 1;
        }
      }
      ChunkAt(file, k);
      assert Chunks(file)[..k] == Chunks(file);
    }

    /** Block `k` of the file starts at `pos`, or the file ends there. */
    ghost predicate AtBlock(file: seq<byte>, pos: nat, k: nat) {
      k <= |Chunks(file)| && pos == (if k * READBLK < |file| then k * READBLK else |file|) && (pos == 0 <==> k == 0)
    }

    method SendBlock(file: seq<byte>, pos: nat, ghost s: seq<Frame>, ghost announce: bool, ghost k: nat)
      returns (next: nat)
      requires AtBlock(file, pos, k) && pos < |file| && SentUpTo(s, announce, Chunks(file), k)
      modifies this`outgoing, this`sent, this`firstData
      ensures AtBlock(file, next, k + 1) && pos < next && SentUpTo(s, announce, Chunks(file), k + 1)
    {
      var readlen := if |file| - pos < READBLK then |file| - pos else READBLK;
      ChunkAt(file, k);
      SendNext(file[pos..pos + readlen], s, announce, Chunks(file), k);
      next := pos + readlen;
    }

    // ---------------------------------------------------------------- server commands

    /** Reads a payload whole. */
    method RecvBytes(len: nat) returns (ok: bool, data: Payload)
      requires len < 0x10000
      modifies this`incoming
      ensures ok <==> |old(incoming)| >= len
      ensures ok ==> data == old(incoming)[..len] && incoming == old(incoming)[len..]
      ensures !ok ==> incoming == []
    {
      var buf := new byte[len];
      var ret := RecvMsg(buf, len);
      ok := ret >= 0;
      data := if ok then buf[..len] else [];
    }

    method SendError(e: Errno)
      requires Framed()
      modifies this`outgoing, this`sent, this`firstData
      ensures Framed() && sent == old(sent) + [ErrorFrame(e)] && firstData
    {
      match e
      case Access => SendMsg(TYPE_ERR_FILE, CMD_ERR_PERMISSION, []);
      case NoEntry => SendMsg(TYPE_ERR_FILE, CMD_ERR_NEGATION, []);
      case OtherError => SendMsg(TYPE_ERR_UNKWN, CMD_ERR_UNKWN, []);
    }

    /** The server is at the start of a command, the announcement armed. */
    ghost predicate Ready()
      reads this
    {
      server && firstData && Framed()
    }

    /** What serving a name did, the stream standing behind the name. */
    ghost predicate Answered(r: Served, sentBefore: seq<Frame>)
      reads this
    {
      Ready() && r.Served? && world == r.w && incoming == r.rest && sent == sentBefore + r.reply
    }

    method FtpGet(name: Payload)
      requires Ready()
      modifies this
      ensures Answered(ServeName(old(world), TYPE_RETR, name, old(incoming)), old(sent))
    {
      var path := PathOf(world, TYPE_RETR, name);
      if !CanOpen(world, path) {
        SendError(Trouble(world, path));
        return;
      }
      ghost var cs := Chunks(Readable(world.nodes[path]));
      var ok := SendFile(Readable(world.nodes[path]), !world.nodes[path].File?);
      if ok {
        SendMsg(TYPE_DATA, CMD_DATA_LAST, []);
      } else {
        SendError(OtherError);
      }
      ghost var end := if ok then LastFrame([]) else ErrorFrame(OtherError);
      Grouped(old(sent), Announcement(cs != []), DataFrames(cs), [end]);
    }

    lemma Grouped(s: seq<Frame>, ann: seq<Frame>, data: seq<Frame>, last: seq<Frame>)
      ensures s + (ann + data) + last == s + (ann + data + last)
    {
    }

    method FtpPut(name: Payload)
      requires Ready()
      modifies this
      ensures Answered(ServeName(old(world), TYPE_STOR, name, old(incoming)), old(sent))
    {
      var path := PathOf(world, TYPE_STOR, name);
      if !CanStore(world, path) {
        SendError(Trouble(world, path));
        return;
      }
      disk := [];
      SendMsg(TYPE_OK, CMD_OK_STOR, []);
      var _ := RecvFile();
      assert disk == FtpFrames.RecvFile(old(incoming)).written;
      world := world.(nodes := world.nodes[path := File(disk)]);
    }

    method Cd(name: Payload)
      requires Ready()
      modifies this
      ensures Answered(ServeName(old(world), TYPE_CWD, name, old(incoming)), old(sent))
    {
      var path := PathOf(world, TYPE_CWD, name);
      if !IsFolder(world, path) {
        SendError(Trouble(world, path));
      } else {
        world := world.(cwd := path);
        SendMsg(TYPE_OK, CMD_OK, []);
      }
    }

    method Dir(name: Payload)
      requires Ready()
      modifies this
      ensures Answered(ServeName(old(world), TYPE_LIST, name, old(incoming)), old(sent))
    {
      var l := ListingOf(world, PathOf(world, TYPE_LIST, name));
      SendLines(l.lines);
      if l.Broken? { SendError(l.errno); }
      SendMsg(TYPE_DATA, CMD_DATA_LAST, []);
      Grouped(old(sent), [], Announced(l.lines), if l.Complete? then [] else [ErrorFrame(l.errno)]);
      Grouped(old(sent), Announced(l.lines), if l.Complete? then [] else [ErrorFrame(l.errno)], [LastFrame([])]);
      assert Announced(l.lines) + Trailer(l) ==
             Announced(l.lines) + (if l.Complete? then [] else [ErrorFrame(l.errno)]) + [LastFrame([])];
    }

    /** Sends the lines of a listing, each a data frame. */
    method SendLines(lines: seq<Payload>)
      requires Ready()
      modifies this`outgoing, this`sent, this`firstData
      ensures Framed() && sent == old(sent) + Announced(lines)
    {
      assert SentUpTo(old(sent), true, lines, 0);
      for i := 0 to |lines|
        invariant SentUpTo(old(sent), true, lines, i)
      {
        SendNext(lines[i], old(sent), true, lines, i);
      }
      assert lines[..|lines|] == lines;
    }

    method ServeNamed(kind: byte, name: Payload)
      requires Ready() && (TakesName(kind) || kind == TYPE_LIST)
      modifies this
      ensures Answered(ServeName(old(world), kind, name, old(incoming)), old(sent))
    {
      if kind == TYPE_CWD {
        Cd(name);
      } else if kind == TYPE_LIST {
        Dir(name);
      } else if kind == TYPE_RETR {
        FtpGet(name);
      } else {
        FtpPut(name);
      }
    }

    /** Reads a header; the fields are meaningful only if the stream held one. */
    method RecvHeader() returns (ok: bool, kind: byte, code: byte, len: nat)
      modifies this`incoming
      ensures ok <==> |old(incoming)| >= HEADER_SIZE
      ensures ok ==> var s := old(incoming);
                     kind == s[0] && code == s[1] && len == LengthField(s) && incoming == s[HEADER_SIZE..]
      ensures !ok ==> incoming == []
      ensures len < 0x10000
    {
      var header := new byte[HEADER_SIZE];
      kind, code, len := 0, 0, 0;
      var ret := RecvMsg(header, HEADER_SIZE);
      ok := ret >= 0;
      if ok {
        ghost var s := old(incoming);
        assert header[..HEADER_SIZE] == s[..HEADER_SIZE];
        assert header[0] == s[..HEADER_SIZE][0] && header[1] == s[..HEADER_SIZE][1];
        assert header[2] == s[..HEADER_SIZE][2] && header[3] == s[..HEADER_SIZE][3];
        kind, code, len := header[0], header[1], (header[2] as int) * 256 + header[3] as int;
      }
    }

    /** One turn of the server's command loop. The announcement is armed at the start of every
        command, whatever the commands before it did. */
    method ServeOne() returns (quit: bool, crashed: bool)
      requires Ready() && |incoming| >= HEADER_SIZE
      modifies this
      ensures crashed <==> Serve(old(world), old(incoming)).Undefined?
      ensures !crashed ==> var r := Serve(old(world), old(incoming)); Answered(r, old(sent)) && quit == r.quit
    {
      var ok, kind, code, len := RecvHeader();
      quit, crashed := false, false;
      if code != CMD_OK { return; }
      if kind == TYPE_QUIT { quit := true; return; }
      if kind == TYPE_PWD {
        if len != 0 { crashed := true; return; }
        SendMsg(TYPE_OK, CMD_OK, world.cwd);
        return;
      }
      if !TakesName(kind) && kind != TYPE_LIST { return; }
      if len == 0 {
        if kind == TYPE_LIST {
          ServeNamed(kind, DOT);
        } else {
          SendMsg(TYPE_ERR_CMD, CMD_ERR_SYNTAX, []);
        }
        return;
      }
      var name;
      ok, name := RecvBytes(len);
      if ok { ServeNamed(kind, name); }
    }

    /** A whole session of the server. */
    method ClientHandler() returns (crashed: bool)
      requires Ready()
      modifies this
      ensures crashed <==> Session(old(world), old(incoming)).crashed
      ensures !crashed ==> var e := Session(old(world), old(incoming));
                           Ready() && world == e.w && outgoing == old(outgoing) + EncodeAll(e.sent)
    {
      crashed := false;
      var stop := false;
      while !stop && |incoming| >= HEADER_SIZE
        invariant Ready()
        invariant var e, e0 := Session(world, incoming), Session(old(world), old(incoming));
                  if stop then e0 == Ended(world, e0.sent, false) && sent == old(sent) + e0.sent
                  else e0.crashed == e.crashed && e0.w == e.w && sent + e.sent == old(sent) + e0.sent
        decreases if stop then 0 else 1, |incoming|
      {
        ghost var s0, w, s := sent, world, incoming;
        stop, crashed := ServeOne();
        if crashed { return; }
        Associate(s0, Serve(w, s).reply, Session(world, incoming).sent);
      }
      assert sent + [] == sent;
      EncodeSplits(old(sent), Session(old(world), old(incoming)).sent);
    }

    // ---------------------------------------------------------------- client commands

    /** A command has said its part on hearing `s`, and has read what it has to of it. */
    ghost predicate Conversed(r: Request, s: seq<byte>, outgoingBefore: seq<byte>)
      reads this
    {
      && Framed() && outgoing == outgoingBefore + (Encode(RequestFrame(r)) + Body(r, s))
      && incoming == ClientRest(r, s)
    }

    method SendRequest(kind: byte, name: Payload)
      requires Framed()
      modifies this`outgoing, this`sent, this`firstData
      ensures Framed() && outgoing == old(outgoing) + (Encode(Command(kind, name)) + [])
    {
      SendMsg(kind, CMD_OK, name);
      assert Encode(Command(kind, name)) + [] == Encode(Command(kind, name));
    }

    /** `get`: asks for a file and receives it. */
    method ClientGet(name: Name) returns (ok: bool)
      requires !server && Framed()
      modifies this
      ensures Conversed(Get(name), old(incoming), old(outgoing))
      ensures var r := TakeReply(old(incoming)); ok == r.ok && disk == r.written
    {
      disk := [];
      SendRequest(TYPE_RETR, name);
      ok := ReceiveReply();
    }

    /** `cd`: only the header of the reply is read. */
    method ClientCd(name: Name) returns (ok: bool)
      requires !server && Framed()
      modifies this
      ensures Conversed(Request.Cd(name), old(incoming), old(outgoing))
      ensures var s := old(incoming); ok <==> |s| >= HEADER_SIZE && s[0] == TYPE_OK && s[1] == CMD_OK
    {
      SendRequest(TYPE_CWD, name);
      var got, kind, code, len := RecvHeader();
      return got && kind == TYPE_OK && code == CMD_OK;
    }

    /** `pwd`: shows the directory the reply carries, unless it is empty. */
    method ClientPwd() returns (ok: bool)
      requires !server && Framed()
      modifies this
      ensures Conversed(Pwd, old(incoming), old(outgoing))
      ensures var s := old(incoming);
              && (ok <==> |s| >= HEADER_SIZE && s[0] == TYPE_OK && s[1] == CMD_OK)
              && (ok && |s| >= HEADER_SIZE + LengthField(s) ==> shown == Line(s[HEADER_SIZE..][..LengthField(s)]))
    {
      shown := [];
      SendRequest(TYPE_PWD, []);
      var got, kind, code, len := RecvHeader();
      if !got || !(kind == TYPE_OK && code == CMD_OK) { return false; }
      got := RecvLine(len);
      return true;
    }

    method ReceiveReply() returns (ok: bool)
      requires disk == []
      modifies this`incoming, this`disk
      ensures var r := TakeReply(old(incoming));
              ok == r.ok && disk == r.written && incoming == r.rest
    {
      var got, kind, code, len := RecvHeader();
      if !got || !(kind == TYPE_OK && code == CMD_OK_RETR) { return false; }
      ok := RecvFile();
      assert disk == FtpFrames.RecvFile(old(incoming)[HEADER_SIZE..]).written;
    }

    /** `dir`: asks for a listing and shows its lines. */
    method ClientDir(name: Name) returns (ok: bool)
      requires !server && Framed()
      modifies this
      ensures Conversed(List(name), old(incoming), old(outgoing))
      ensures var r := TakeListing(old(incoming)); ok == r.ok && shown == r.lines
    {
      shown := [];
      SendRequest(TYPE_LIST, name);
      var got, kind, code, len := RecvHeader();
      if !got || !(kind == TYPE_OK && code == CMD_OK_RETR) { return false; }
      got := RecvLine(len);
      if !got { return false; }
      ok := RecvLines();
    }

    /** One payload of a listing, which is shown unless it is empty. */
    method RecvLine(len: nat) returns (ok: bool)
      requires len < 0x10000
      modifies this`incoming, this`shown
      ensures ok <==> |old(incoming)| >= len
      ensures ok ==> incoming == old(incoming)[len..] && shown == old(shown) + Line(old(incoming)[..len])
      ensures !ok ==> incoming == [] && shown == old(shown)
    {
      if len == 0 { return true; }
      var line;
      ok, line := RecvBytes(len);
      if ok { shown := shown + [line]; }
    }

    /** One line of a listing: `done` once the listing is over, `ok` telling how. */
    method RecvOneLine() returns (done: bool, ok: bool)
      modifies this`incoming, this`shown
      ensures done ==> var r := TakeLines(old(incoming));
                       ok == r.ok && incoming == r.rest && shown == old(shown) + r.lines
      ensures !done ==> var r0, r := TakeLines(old(incoming)), TakeLines(incoming);
                        && |incoming| < |old(incoming)| && r0.ok == r.ok && r0.rest == r.rest
                        && shown + r.lines == old(shown) + r0.lines
    {
      var got, kind, code, len := RecvHeader();
      if !got || kind != TYPE_DATA { return true, false; }
      got := RecvLine(len);
      if !got { return true, false; }
      if code == CMD_DATA_LAST { return true, true; }
      ghost var body := old(incoming)[HEADER_SIZE..];
      Associate(old(shown), Line(body[..len]), TakeLines(body[len..]).lines);
      return false, false;
    }

    /** Receives lines until the frame marked last, and shows them. */
    method RecvLines() returns (ok: bool)
      modifies this`incoming, this`shown
      ensures var r := TakeLines(old(incoming));
              ok == r.ok && incoming == r.rest && shown == old(shown) + r.lines
    {
      while true
        invariant var r, r0 := TakeLines(incoming), TakeLines(old(incoming));
                  r0.ok == r.ok && r0.rest == r.rest && shown + r.lines == old(shown) + r0.lines
        decreases |incoming|
      {
        var done;
        done, ok := RecvOneLine();
        if done { return; }
      }
    }

    /** `put`: announces a file and sends it once the server agrees. `failing` says that reading the
        file fails behind the bytes of `file`: then no end frame is sent. */
    method ClientPut(name: Name, file: seq<byte>, failing: bool) returns (ok: bool)
      requires !server && Framed()
      modifies this
      ensures Conversed(Put(name, file, failing), old(incoming), old(outgoing))
      ensures ok == (Agreed(old(incoming)) && !failing)
    {
      SendRequest(TYPE_STOR, name);
      ghost var request, data := Encode(Command(TYPE_STOR, name)), EncodeAll(DataFrames(Chunks(file)));
      var got, kind, code, len := RecvHeader();
      if !got || !(kind == TYPE_OK && code == CMD_OK_STOR) { return false; }
      ok := SendFile(file, failing);
      assert [] + DataFrames(Chunks(file)) == DataFrames(Chunks(file));
      assert request + [] == request;
      Associate(old(outgoing), request, data);
      if !ok { return; }
      SendMsg(TYPE_DATA, CMD_DATA_LAST, []);
      Associate(request, data, Encode(LastFrame([])));
      Associate(old(outgoing), request + data, Encode(LastFrame([])));
    }
  }
}
