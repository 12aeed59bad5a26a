/** Frames of the file transfer protocol, the byte stream they travel on, and what the receiving
    loop makes of a stream. */
module FtpFrames {
  import opened Seqs

  type byte = x: int | 0 <= x < 256

  const HEADER_SIZE := 4
  const READBLK := 1024

  const TYPE_QUIT: byte := 0x01
  const TYPE_PWD: byte := 0x02
  const TYPE_CWD: byte := 0x03
  const TYPE_LIST: byte := 0x04
  const TYPE_RETR: byte := 0x05
  const TYPE_STOR: byte := 0x06
  const TYPE_OK: byte := 0x10
  const TYPE_ERR_CMD: byte := 0x11
  const TYPE_ERR_FILE: byte := 0x12
  const TYPE_ERR_UNKWN: byte := 0x13
  const TYPE_DATA: byte := 0x20

  const CMD_OK: byte := 0x00
  const CMD_OK_RETR: byte := 0x01
  const CMD_OK_STOR: byte := 0x02
  const CMD_ERR_NEGATION: byte := 0x00
  const CMD_ERR_SYNTAX: byte := 0x01
  const CMD_ERR_PERMISSION: byte := 0x01
  const CMD_ERR_UNKWN: byte := 0x05
  const CMD_DATA_LAST: byte := 0x00
  const CMD_DATA: byte := 0x01

  /** A payload whose length fits the 16-bit length field. */
  type Payload = d: seq<byte> | |d| < 0x10000

  datatype Frame = Frame(kind: byte, code: byte, data: Payload)

  /** Header and payload; the length is in network byte order. */
  function Encode(f: Frame): (s: seq<byte>)
    ensures |s| == HEADER_SIZE + |f.data|
  {
    [f.kind, f.code, |f.data| / 256, |f.data| % 256] + f.data
  }

  function EncodeAll(fs: seq<Frame>): seq<byte> {
    FlatMap(Encode, fs)
  }

  /** Frames sent one after the other stand one after the other on the stream. */
  lemma EncodeSplits(a: seq<Frame>, b: seq<Frame>)
    ensures EncodeAll(a + b) == EncodeAll(a) + EncodeAll(b)
  {
    FlatMapSplits(Encode, a, b);
  }

  lemma EncodeOne(f: Frame)
    ensures EncodeAll([f]) == Encode(f)
  {
    FlatMapOne(Encode, f);
  }

  function LengthField(s: seq<byte>): (n: nat)
    requires |s| >= HEADER_SIZE
    ensures n < 0x10000
  {
    (s[2] as int) * 256 + s[3] as int
  }

  function DataFrame(d: Payload): Frame { Frame(TYPE_DATA, CMD_DATA, d) }
  function LastFrame(d: Payload): Frame { Frame(TYPE_DATA, CMD_DATA_LAST, d) }

  /** Reading a header back gives the frame, and leaves the stream at the next frame. */
  lemma DecodeEncode(f: Frame, rest: seq<byte>)
    ensures var s := Encode(f) + rest;
            && s[0] == f.kind && s[1] == f.code && LengthField(s) == |f.data|
            && s[HEADER_SIZE..][..|f.data|] == f.data
            && s[HEADER_SIZE + |f.data|..] == rest
  {
  }

  // ---------------------------------------------------------------- splitting a file

  /** The blocks in which a file is read. */
  function Chunks(file: seq<byte>): (cs: seq<Payload>)
    ensures cs == [] <==> file == []
    ensures forall i :: 0 <= i < |cs| ==> 0 < |cs[i]| <= READBLK
  {
    if file == [] then [] else
      var n := if |file| < READBLK then |file| else READBLK;
      [file[..n]] + Chunks(file[n..])
  }

  function Join(cs: seq<Payload>): seq<byte> {
    FlatMap(Bytes, cs)
  }

  function Bytes(d: Payload): seq<byte> { d }

  lemma {:induction false} JoinChunks(file: seq<byte>)
    ensures Join(Chunks(file)) == file
    decreases |file|
  {
    if file == [] {
    } else {
      var n := if |file| < READBLK then |file| else READBLK;
      JoinChunks(file[n..]);
    }
  }

  /** Block `k`, cut out of the file directly. */
  function BlockAt(file: seq<byte>, k: nat): seq<byte>
    requires k * READBLK < |file|
  {
    file[k * READBLK..if (k + 1) * READBLK < |file| then (k + 1) * READBLK else |file|]
  }

  /** The k-th block starts at byte k * READBLK. */
  lemma {:induction false} ChunkAt(file: seq<byte>, k: nat)
    ensures k < |Chunks(file)| <==> k * READBLK < |file|
    ensures k * READBLK < |file| ==> Chunks(file)[k] == BlockAt(file, k)
    decreases k
  {
    if k == 0 || file == [] {
    } else if |file| <= READBLK {
      assert Chunks(file)[1..] == [];
    } else {
      ChunkAt(file[READBLK..], k - 1);
      NextBlock(file, k);
    }
  }

  lemma NextBlock(file: seq<byte>, k: nat)
    requires k > 0 && READBLK < |file|
    ensures |Chunks(file)| == 1 + |Chunks(file[READBLK..])|
    ensures k < |Chunks(file)| ==> Chunks(file)[k] == Chunks(file[READBLK..])[k - 1]
    ensures k * READBLK < |file| ==> BlockAt(file, k) == BlockAt(file[READBLK..], k - 1)
  {
    ChunksStep(file);
    if k * READBLK < |file| {
      BlockStep(file, k);
    }
  }

  lemma ChunksStep(file: seq<byte>)
    requires READBLK < |file|
    ensures Chunks(file) == [file[..READBLK]] + Chunks(file[READBLK..])
  {
  }

  lemma BlockStep(file: seq<byte>, k: nat)
    requires 0 < k && k * READBLK < |file|
    ensures BlockAt(file, k) == BlockAt(file[READBLK..], k - 1)
  {
    SliceBehind(file, READBLK, (k - 1) * READBLK, |BlockAt(file, k)|);
  }

  lemma SliceBehind(s: seq<byte>, i: nat, j: nat, n: nat)
    requires i + j + n <= |s|
    ensures s[i..][j..j + n] == s[i + j..i + j + n]
  {
  }

  function DataFrames(cs: seq<Payload>): (fs: seq<Frame>)
    ensures |fs| == |cs| && forall i :: 0 <= i < |cs| ==> fs[i] == DataFrame(cs[i])
  {
    seq(|cs|, i requires 0 <= i < |cs| => DataFrame(cs[i]))
  }

  // ---------------------------------------------------------------- receiving a file

  datatype Received = Received(ok: bool, written: seq<byte>, rest: seq<byte>)

  /** What the receiving loop writes to the file and leaves on the stream. It stops after the
      frame marked last, at a frame that is not data, or when the stream ends; a payload cut short
      by the end of the stream is written in whole blocks only. */
  function RecvFile(s: seq<byte>): (r: Received)
    ensures |r.rest| <= |s|
    decreases |s|
  {
    if |s| < HEADER_SIZE then Received(false, [], [])
    else if s[0] != TYPE_DATA then Received(false, [], s[HEADER_SIZE..])
    else
      var n, body := LengthField(s), s[HEADER_SIZE..];
      if |body| < n then Received(false, body[..|body| / READBLK * READBLK], [])
      else if s[1] == CMD_DATA_LAST then Received(true, body[..n], body[n..])
      else
        var r := RecvFile(body[n..]);
        r.(written := body[..n] + r.written)
  }

  lemma RecvFrame(f: Frame, rest: seq<byte>)
    requires f.kind == TYPE_DATA
    ensures RecvFile(Encode(f) + rest) ==
              if f.code == CMD_DATA_LAST then Received(true, f.data, rest)
              else var r := RecvFile(rest); r.(written := f.data + r.written)
  {
    DecodeEncode(f, rest);
    var s := Encode(f) + rest;
    assert s[HEADER_SIZE..][|f.data|..] == rest;
  }

  /** Data frames of any length, an end frame, and then anything: the receiver writes the payloads
      in order and stops exactly behind the end frame. */
  lemma {:induction false} RecvFrames(cs: seq<Payload>, last: Payload, rest: seq<byte>)
    ensures RecvFile(EncodeAll(DataFrames(cs)) + Encode(LastFrame(last)) + rest)
         == Received(true, Join(cs) + last, rest)
  {
    if cs == [] {
      RecvFrame(LastFrame(last), rest);
      assert [] + Encode(LastFrame(last)) == Encode(LastFrame(last));
    } else {
      var tail := EncodeAll(DataFrames(cs[1..])) + Encode(LastFrame(last)) + rest;
      RecvFrames(cs[1..], last, rest);
      RecvFrame(DataFrame(cs[0]), tail);
      assert DataFrames(cs) == [DataFrame(cs[0])] + DataFrames(cs[1..]);
      FlatMapCons(Encode, DataFrame(cs[0]), DataFrames(cs[1..]));
      Regroup(Encode(DataFrame(cs[0])), EncodeAll(DataFrames(cs[1..])), Encode(LastFrame(last)), rest);
      Associate(cs[0], Join(cs[1..]), last);
    }
  }

  /** Only such a stream is accepted: whatever the receiver takes for a complete transfer is a
      sequence of data frames up to the first one marked last. */
  lemma {:induction false} AcceptedIsFrames(s: seq<byte>) returns (fs: seq<Frame>, last: Payload)
    requires RecvFile(s).ok
    ensures forall i :: 0 <= i < |fs| ==> fs[i].kind == TYPE_DATA && fs[i].code != CMD_DATA_LAST
    ensures s == EncodeAll(fs) + Encode(LastFrame(last)) + RecvFile(s).rest
    ensures RecvFile(s).written == FlatMap(DataOf, fs) + last
    decreases |s|
  {
    var f, behind := FirstFrame(s);
    RecvFrame(f, behind);
    if f.code == CMD_DATA_LAST {
      fs, last := [], f.data;
    } else {
      fs, last := AcceptedIsFrames(behind);
      PrependFrame(f, fs, last, behind, RecvFile(behind).rest);
      fs := [f] + fs;
    }
  }

  /** The frame at the start of a stream that holds it whole, and what follows. */
  lemma FirstFrame(s: seq<byte>) returns (f: Frame, behind: seq<byte>)
    requires |s| >= HEADER_SIZE && |s| >= HEADER_SIZE + LengthField(s)
    ensures s == Encode(f) + behind && f.kind == s[0] && f.code == s[1] && |behind| < |s|
  {
    var n, body := LengthField(s), s[HEADER_SIZE..];
    f, behind := Frame(s[0], s[1], body[..n]), body[n..];
  }

  lemma PrependFrame(f: Frame, fs: seq<Frame>, last: Payload, s: seq<byte>, rest: seq<byte>)
    requires s == EncodeAll(fs) + Encode(LastFrame(last)) + rest
    ensures Encode(f) + s == EncodeAll([f] + fs) + Encode(LastFrame(last)) + rest
    ensures f.data + (FlatMap(DataOf, fs) + last) == FlatMap(DataOf, [f] + fs) + last
  {
  }

  function DataOf(f: Frame): seq<byte> { f.data }

  /** A file as it is sent: its blocks, and an end frame. */
  function FileBytes(file: seq<byte>): seq<byte> {
    EncodeAll(DataFrames(Chunks(file))) + Encode(LastFrame([]))
  }

  /** File transfer round trip: whatever the file, the frames it is sent as are received as that
      file, and the stream is left at the frame that follows. */
  lemma FileRoundTrip(file: seq<byte>, rest: seq<byte>)
    ensures RecvFile(FileBytes(file) + rest) == Received(true, file, rest)
  {
    RecvFrames(Chunks(file), [], rest);
    JoinChunks(file);
  }
}
