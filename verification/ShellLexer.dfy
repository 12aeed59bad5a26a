/** The shell's lexer: tokens from a character stream with one character of pushback, and the
    splitting of a token into words inside its buffer. */
module ShellLexer {
  import opened Seqs
  import opened ShellLine

  predicate IsBlank(c: char) { c == ' ' || c == '\t' }

  /** The characters of the token table. */
  predicate IsSpecial(c: char) { c == '<' || c == '>' || c == '|' || c == '&' || c == '\n' || c == '\r' }

  function KindOf(c: char): Kind
    requires IsSpecial(c)
  {
    match c
    case '<' => RedirIn
    case '>' => RedirOut
    case '|' => Pipe
    case '&' => Background
    case _ => Eol
  }

  // ---------------------------------------------------------------- tokens of a string

  function SkipBlanks(s: string): (t: string)
    ensures |t| <= |s|
    ensures t != [] ==> !IsBlank(t[0])
  {
    if s != [] && IsBlank(s[0]) then SkipBlanks(s[1..]) else s
  }

  /** How many characters stand before the first special one. */
  function PlainPrefix(s: string): (n: nat)
    ensures n <= |s| && (n < |s| ==> IsSpecial(s[n]))
    ensures forall i :: 0 <= i < n ==> !IsSpecial(s[i])
  {
    if s == [] || IsSpecial(s[0]) then 0 else 1 + PlainPrefix(s[1..])
  }

  datatype Token = Token(kind: Kind, text: string, rest: string)

  /** The first token of `s`, in a buffer of `max` characters, and what is left. */
  function Lex(s: string, max: nat): (t: Token)
    requires max > 0
    ensures s != [] ==> |t.rest| < |s|
  {
    var t := SkipBlanks(s);
    if t == [] then Token(Eof, [], [])
    else if t[0] == '>' then
      if |t| == 1 then Token(Error, [], [])
      else if t[1] == '>' then Token(RedirAppend, [], t[2..])
      else Token(KindOf(t[0]), [], t[1..])
    else if IsSpecial(t[0]) then Token(KindOf(t[0]), [], t[1..])
    else
      var n := PlainPrefix(t);
      if n >= max then Token(Error, t[..max], t[max..])
      else if n == |t| then Token(Error, t, [])
      else Token(Normal, t[..n], t[n..])
  }

  // ---------------------------------------------------------------- words of a token

  /** How many characters stand before the first blank or the end of the C string. */
  function WordLength(s: string): (n: nat)
    ensures n <= |s| && (n < |s| ==> IsBlank(s[n]) || s[n] == '\0')
    ensures forall i :: 0 <= i < n ==> !IsBlank(s[i]) && s[i] != '\0'
  {
    if s == [] || IsBlank(s[0]) || s[0] == '\0' then 0 else 1 + WordLength(s[1..])
  }

  /** The blank-separated words of the C string at the start of `s`. */
  function Words(s: string): seq<string>
    decreases |s|
  {
    var t := SkipBlanks(s);
    if t == [] || t[0] == '\0' then []
    else
      var n := WordLength(t);
      [t[..n]] + Words(t[n..])
  }

  // ---------------------------------------------------------------- the program

  datatype Got = Got(c: char) | EndOfInput

  class Input {
    var rest: string

    constructor (s: string)
      ensures rest == s
    {
      rest := s;
    }

    method Getc() returns (g: Got)
      modifies this
      ensures if old(rest) == [] then g == EndOfInput && rest == []
              else g == Got(old(rest)[0]) && rest == old(rest)[1..]
    {
      if rest == [] { return EndOfInput; }
      g := Got(rest[0]);
      rest := rest[1..];
    }

    /** Pushes a character back; the end of the input cannot be pushed back. */
    method Ungetc(g: Got) returns (ok: bool)
      modifies this
      ensures ok <==> g.Got?
      ensures rest == if g.Got? then [g.c] + old(rest) else old(rest)
    {
      ok := g.Got?;
      if ok { rest := [g.c] + rest; }
    }

    method GetNonBlank() returns (g: Got)
      modifies this
      ensures SkipBlanks(old(rest)) == if g.Got? then [g.c] + rest else []
      ensures if g.Got? then !IsBlank(g.c) else rest == []
    {
      g := Got(' ');
      while g.Got? && IsBlank(g.c)
        invariant SkipBlanks(if g.Got? then [g.c] + rest else []) == SkipBlanks(old(rest))
        invariant g.EndOfInput? ==> rest == []
        decreases |rest|, if g.Got? then 1 else 0
      {
        g := Getc();
      }
    }

    method GetToken(max: nat) returns (kind: Kind, text: string)
      requires max > 0
      modifies this
      ensures Lex(old(rest), max) == Token(kind, text, rest)
    {
      text := [];
      var g := GetNonBlank();
      if g.EndOfInput? { return Eof, text; }
      ghost var t := [g.c] + rest;
      if g.c == '>' {
        g := Getc();
        if g == Got('>') { return RedirAppend, text; }
        var ok := Ungetc(g);
        if !ok { return Error, text; }
        return RedirOut, text;
      }
      if IsSpecial(g.c) { return KindOf(g.c), text; }
      var ok := Ungetc(g);
      assert rest == t;
      kind, text := Accumulate(max);
    }

    /** Reads up to the next special character, which is pushed back. */
    method Accumulate(max: nat) returns (kind: Kind, text: string)
      requires max > 0
      modifies this
      ensures var t, n := old(rest), PlainPrefix(old(rest));
              if n >= max then kind == Error && text == t[..max] && rest == t[max..]
              else if n == |t| then kind == Error && text == t && rest == []
              else kind == Normal && text == t[..n] && rest == t[n..]
    {
      text := [];
      while true
        invariant |text| <= max && |text| <= |old(rest)|
        invariant text == old(rest)[..|text|] && rest == old(rest)[|text|..]
        invariant forall i :: 0 <= i < |text| ==> !IsSpecial(old(rest)[i])
        decreases |old(rest)| - |text|
      {
        if |text| >= max { return Error, text; }
        var g := Getc();
        if g.EndOfInput? || IsSpecial(g.c) {
          var ok := Ungetc(g);
          assert |text| == PlainPrefix(old(rest));
          if !ok { return Error, text; }
          return Normal, text;
        }
        text := text + [g.c];
      }
    }
  }

  /** A C string lies at offset `at` of the buffer. */
  ghost predicate WordAt(b: seq<char>, at: nat, w: string) {
    && at + |w| < |b| && b[at..at + |w|] == w && b[at + |w|] == '\0'
    && forall i :: 0 <= i < |w| ==> w[i] != '\0'
  }

  /** Splits the C string in the buffer into words in place: the offsets of the words are
      returned, and the blank behind each word becomes its terminator. */
  method GetArgs(buf: array<char>) returns (argv: seq<nat>)
    requires '\0' in buf[..]
    modifies buf
    ensures SplitTo(old(buf[..]), buf[..], argv, Words(old(buf[..])), buf.Length)
  {
    argv := [];
    ghost var s := buf[..];
    ghost var z :| 0 <= z < |s| && s[z] == '\0';
    ghost var words: seq<string> := [];
    var i, more := 0, true;
    assert s[0..] == s;
    while more
      invariant SplitTo(s, buf[..], argv, words, i) && (more ==> i <= z)
      invariant WordsFrom(s, words, i, more)
      decreases if more then 1 else 0, buf.Length - i
    {
      var found, start, end := FindWord(buf, i, s, z, argv, words);
      if !found { break; }
      WordsStep(s, words, i, start, end);
      more := Terminate(buf, end);
      argv, words, i := argv + [start], words + [s[start..end]], end + 1;
    }
    assert Words(s) == words;
    AllSplit(s, buf[..], argv, words, i);
  }

  lemma AllSplit(s: string, b: seq<char>, argv: seq<nat>, words: seq<string>, i: nat)
    requires SplitTo(s, b, argv, words, i)
    ensures SplitTo(s, b, argv, words, |s|)
  {
  }

  /** The next word from offset `i` on, if there is one, reaches from `start` to `end`. */
  ghost predicate WordBetween(s: string, i: nat, start: nat, end: nat)
    requires i < |s|
  {
    && i <= start <= end < |s|
    && Words(s[i..]) == [s[start..end]] + if s[end] == '\0' then [] else Words(s[end + 1..])
  }

  /** The words of `s` are `words` and, if there is more, those from offset `i` on. */
  ghost predicate WordsFrom(s: string, words: seq<string>, i: nat, more: bool) {
    i <= |s| && Words(s) == words + if more then Words(s[i..]) else []
  }

  lemma WordsStep(s: string, words: seq<string>, i: nat, start: nat, end: nat)
    requires i < |s| && WordsFrom(s, words, i, true) && WordBetween(s, i, start, end)
    ensures WordsFrom(s, words + [s[start..end]], end + 1, s[end] != '\0')
  {
    Associate(words, [s[start..end]], if s[end] == '\0' then [] else Words(s[end + 1..]));
  }

  /** Before offset `i` the words lie in place, each ended by a terminator; only blanks have become
      terminators, and from `i` on the buffer is as it was. */
  ghost predicate SplitTo(s: string, b: seq<char>, argv: seq<nat>, words: seq<string>, i: nat) {
    i <= |s| && Cleared(s, b, i) && Placed(b, argv, words, i)
  }

  /** Finds the next word from offset `i` on. */
  method FindWord(buf: array<char>, i: nat, ghost s: seq<char>, ghost z: nat,
                  ghost argv: seq<nat>, ghost words: seq<string>)
    returns (found: bool, start: nat, end: nat)
    requires i <= z < |s| && s[z] == '\0' && SplitTo(s, buf[..], argv, words, i)
    ensures !found ==> Words(s[i..]) == []
    ensures found ==> WordBetween(s, i, start, end) && end <= z && end < buf.Length && buf[end] == s[end]
    ensures found ==> SplitTo(s, buf[..][end := '\0'], argv + [start], words + [s[start..end]], end + 1)
  {
    start := SkipTo(buf, i, s, z);
    if buf[start] == '\0' {
      return false, start, start;
    }
    end := EndOfWord(buf, start, s, z);
    WordDone(s, buf[..], i, start, end, argv, words);
    found := true;
  }

  /** Ends the string at `end`; tells whether it went on. */
  method Terminate(buf: array<char>, end: nat) returns (more: bool)
    requires end < buf.Length
    modifies buf
    ensures buf[..] == old(buf[..])[end := '\0'] && (more <==> old(buf[end]) != '\0')
  {
    more := buf[end] != '\0';
    if more { buf[end] := '\0'; }
  }

  /** With its end terminated, the next word is in place. */
  lemma WordDone(s: string, b: seq<char>, i: nat, start: nat, end: nat, argv: seq<nat>, words: seq<string>)
    requires i <= start <= end < |s| && SplitTo(s, b, argv, words, i)
    requires SkipBlanks(s[i..]) == s[start..] && s[start] != '\0' && end == start + WordLength(s[start..])
    ensures WordBetween(s, i, start, end)
    ensures SplitTo(s, b[end := '\0'], argv + [start], words + [s[start..end]], end + 1)
  {
    NextWord(s, i, start, end);
    WordPlaced(s, b, i, start, end, argv, words);
  }

  lemma WordPlaced(s: string, b: seq<char>, i: nat, start: nat, end: nat, argv: seq<nat>, words: seq<string>)
    requires i <= start <= end < |s| && Cleared(s, b, i) && Placed(b, argv, words, i)
    requires (forall j :: start <= j < end ==> s[j] != '\0') && (IsBlank(s[end]) || s[end] == '\0')
    ensures Cleared(s, b[end := '\0'], end + 1)
    ensures Placed(b[end := '\0'], argv + [start], words + [s[start..end]], end + 1)
  {
  }

  /** From offset `i` on the buffer is as it was, and before `i` only blanks have become NULs. */
  ghost predicate Cleared(s: seq<char>, b: seq<char>, i: nat)
    requires i <= |s|
  {
    && |b| == |s| && (forall j :: i <= j < |s| ==> b[j] == s[j])
    && forall j :: 0 <= j < i ==> b[j] == s[j] || (IsBlank(s[j]) && b[j] == '\0')
  }

  lemma NextWord(s: string, i: nat, start: nat, end: nat)
    requires i <= start < |s| && SkipBlanks(s[i..]) == s[start..] && s[start] != '\0'
    requires start <= end < |s| && end == start + WordLength(s[start..])
    ensures Words(s[i..]) == [s[start..end]] + Words(s[end..])
    ensures IsBlank(s[end]) || s[end] == '\0'
    ensures Words(s[end..]) == if s[end] == '\0' then [] else Words(s[end + 1..])
    ensures forall j :: start <= j < end ==> s[j] != '\0'
  {
    var t := s[start..];
    assert t[..end - start] == s[start..end] && t[end - start..] == s[end..] && t[end - start] == s[end];
    assert s[end..][1..] == s[end + 1..];
    forall j | start <= j < end ensures s[j] != '\0' {
      assert t[j - start] == s[j];
    }
  }

  /** The words found so far lie in the buffer, before offset `i`. */
  ghost predicate Placed(b: seq<char>, argv: seq<nat>, words: seq<string>, i: nat) {
    |argv| == |words| && forall k :: 0 <= k < |argv| ==> argv[k] + |words[k]| < i && WordAt(b, argv[k], words[k])
  }

  method SkipTo(buf: array<char>, i: nat, ghost s: seq<char>, ghost z: nat) returns (start: nat)
    requires buf.Length == |s| && i <= z < |s| && s[z] == '\0' && forall j :: i <= j < |s| ==> buf[j] == s[j]
    ensures i <= start <= z && SkipBlanks(s[i..]) == s[start..] && !IsBlank(buf[start])
  {
    start := i;
    while IsBlank(buf[start])
      invariant i <= start <= z
      invariant SkipBlanks(s[i..]) == SkipBlanks(s[start..])
      decreases z - start
    {
      assert s[start..][1..] == s[start + 1..];
      start := start + 1;
    }
  }

  method EndOfWord(buf: array<char>, start: nat, ghost s: seq<char>, ghost z: nat) returns (end: nat)
    requires buf.Length == |s| && start <= z < |s| && s[z] == '\0' && forall j :: start <= j < |s| ==> buf[j] == s[j]
    ensures start <= end <= z && end == start + WordLength(s[start..])
  {
    end := start;
    while buf[end] != '\0' && !IsBlank(buf[end])
      invariant start <= end <= z
      invariant forall j :: start <= j < end ==> s[j] != '\0' && !IsBlank(s[j])
      decreases z - end
    {
      end := end + 1;
    }
    assert s[start..][end - start] == s[end];
  }
}
