/**
 The signaling channel: messages as lines of text (src/common/signaling.cpp) and the reader that cuts
 lines out of whatever pieces the socket hands over (src/streamer/signaling_server.cpp).
 */
module Signaling {
  import opened Bytes

  const LINE_LIMIT: nat := 65536
  const CHUNK: nat := 4096

  // ------------------------------------------------------------------------ messages

  datatype Type = Hello | Ready | Input | Start | Bye | Ping

  datatype Message = Message(kind: Type, body: string)

  function Serialize(m: Message): string {
    match m.kind
    case Hello => "HELLO " + m.body
    case Ready => "READY " + m.body
    case Input => "INPUT " + m.body
    case Start => "START"
    case Bye => "BYE"
    case Ping => "PING"
  }

  /** The first place of c, or the length. */
  function Find(s: string, c: char): (i: nat)
    ensures i <= |s| && c !in s[..i]
    ensures i < |s| ==> s[i] == c
  {
    if s == [] || s[0] == c then 0
    else
      var i := Find(s[1..], c);
      assert s[..i + 1] == [s[0]] + s[1..][..i];
      i + 1
  }

  function Trimmed(line: string): string {
    if line != [] && line[|line| - 1] == '\r' then line[..|line| - 1] else line
  }

  function Parse(line: string): Option<Message> {
    var text := Trimmed(line);
    if text == "START" then Some(Message(Start, ""))
    else if text == "BYE" then Some(Message(Bye, ""))
    else if text == "PING" then Some(Message(Ping, ""))
    else
      var sp := Find(text, ' ');
      if sp == |text| then None
      else
        var command, rest := text[..sp], text[sp + 1..];
        if command == "HELLO" then Some(Message(Hello, rest))
        else if command == "READY" then Some(Message(Ready, rest))
        else if command == "INPUT" then Some(Message(Input, rest))
        else None
  }

  predicate HasBody(t: Type) { t.Hello? || t.Ready? || t.Input? }

  predicate Canonical(m: Message) {
    if HasBody(m.kind) then m.body == [] || m.body[|m.body| - 1] != '\r' else m.body == ""
  }

  /**
   A line is taken for a message exactly if it is that message written out, one carriage return at its end
   aside: whatever is not one of the six commands, in capitals and with its space, is no message.
   */
  lemma ParseReadsExactly(line: string, m: Message)
    ensures Parse(line) == Some(m) <==> Trimmed(line) == Serialize(m) && (HasBody(m.kind) || m.body == "")
  {
    var text := Trimmed(line);
    var sp := Find(text, ' ');
    if HasBody(m.kind) && text == Serialize(m) {
      SpacePlace(m);
    }
    if sp < |text| {
      assert text == text[..sp] + " " + text[sp + 1..];
    }
  }

  /** The first space of a message with a body follows its command. */
  lemma SpacePlace(m: Message)
    requires HasBody(m.kind)
    ensures Find(Serialize(m), ' ') == 5 && Serialize(m)[6..] == m.body
  {
    FindAt(Serialize(m), ' ', 5);
  }

  lemma FindAt(s: string, c: char, i: nat)
    requires i < |s| && s[i] == c && c !in s[..i]
    ensures Find(s, c) == i
  {
  }

  lemma FindNone(s: string, c: char)
    requires c !in s
    ensures Find(s, c) == |s|
  {
  }

  /** Looking for c in a stream of which line and count more have been passed over. */
  lemma FindBeyond(all: string, line: string, rest: string, count: nat, c: char)
    requires all == line + rest && c !in line && count <= |rest| && c !in rest[..count]
    ensures Find(all, c) >= |line| + count
    ensures all == line + rest[..count] + rest[count..]
    ensures count < |rest| && rest[count] == c ==>
      Find(all, c) == |line| + count && all[..Find(all, c)] == line + rest[..count]
      && all[Find(all, c) + 1..] == rest[count..][1..]
  {
    assert all[..|line| + count] == line + rest[..count];
    if count < |rest| && rest[count] == c {
      FindAt(all, c, |line| + count);
    }
  }

  /** A carriage return at the end of a line is one at the end of the body. */
  lemma TrimBody(command: string, body: string)
    requires |command| == 5 && ' ' !in command
    ensures Trimmed(command + " " + body) == command + " " + Trimmed(body)
    ensures var text := command + " " + Trimmed(body);
      Find(text, ' ') == 5 && text[..5] == command && text[6..] == Trimmed(body)
  {
    var line := command + " " + body;
    if body != "" {
      assert line[|line| - 1] == body[|body| - 1];
    }
    var text := command + " " + Trimmed(body);
    assert text[..5] == command;
    FindAt(text, ' ', 5);
  }

  /** What comes back is the message with at most a carriage return taken off its body. */
  lemma ParsedBack(m: Message)
    ensures Parse(Serialize(m)) == Some(Message(m.kind, if HasBody(m.kind) then Trimmed(m.body) else ""))
  {
    if HasBody(m.kind) {
      var command := if m.kind.Hello? then "HELLO" else if m.kind.Ready? then "READY" else "INPUT";
      assert Serialize(m) == command + " " + m.body;
      TrimBody(command, m.body);
      ParseReadsExactly(Serialize(m), Message(m.kind, Trimmed(m.body)));
      hide Trimmed, Find, Parse;
    }
  }

  /** A message survives being written and read, if and only if it is canonical. */
  lemma ParseInvertsSerialize(m: Message)
    ensures Parse(Serialize(m)) == Some(m) <==> Canonical(m)
  {
    ParsedBack(m);
  }

  // ------------------------------------------------------------------------ lines

  /** The lines of a stream, up to the first that is too long or has no end. */
  function Lines(stream: string): (ls: seq<string>)
    ensures forall l :: l in ls ==> '\n' !in l && |l| <= LINE_LIMIT
    decreases |stream|
  {
    var i := Find(stream, '\n');
    if i == |stream| || i > LINE_LIMIT then [] else [stream[..i]] + Lines(stream[i + 1..])
  }

  /** What the server's loop makes of the lines: malformed ones are skipped, BYE is the last. */
  function Received(lines: seq<string>): seq<Message> {
    if lines == [] then []
    else
      match Parse(lines[0])
      case None => Received(lines[1..])
      case Some(m) => if m.kind.Bye? then [m] else [m] + Received(lines[1..])
  }

  /** A connection, as the pieces that successive calls of recv will return. */
  class Socket {
    var pieces: seq<string>

    ghost predicate Valid()
      reads this
    {
      forall p :: p in pieces ==> 0 < |p| <= CHUNK
    }

    constructor (pieces: seq<string>)
      requires forall p :: p in pieces ==> 0 < |p| <= CHUNK
      ensures Valid() && this.pieces == pieces
    {
      this.pieces := pieces;
    }

    method Recv(buffer: array<char>) returns (n: nat)
      requires Valid() && buffer.Length == CHUNK
      modifies this, buffer
      ensures Valid() && n <= CHUNK
      ensures n == 0 <==> old(pieces) == []
      ensures n == 0 ==> pieces == []
      ensures n > 0 ==> buffer[..n] == old(pieces)[0] && pieces == old(pieces)[1..]
    {
      if |pieces| == 0 { return 0; }
      var piece := pieces[0];
      n := |piece|;
      forall i | 0 <= i < n {
        buffer[i] := piece[i];
      }
      pieces := pieces[1..];
    }
  }

  lemma FlattenHead<T>(ss: seq<seq<T>>)
    ensures ss == [] ==> Flatten(ss) == []
    ensures ss != [] ==> Flatten(ss) == ss[0] + Flatten(ss[1..])
  {
  }

  class LineReader {
    const buffer: array<char>
    var pos: nat
    var size: nat

    ghost predicate Valid()
      reads this
    {
      buffer.Length == CHUNK && pos <= size <= CHUNK
    }

    /** All that is still to be read. */
    ghost function Rest(fd: Socket): string
      reads this, buffer, fd
      requires Valid()
    {
      buffer[pos..size] + Flatten(fd.pieces)
    }

    constructor ()
      ensures Valid() && fresh(buffer) && pos == size == 0
    {
      buffer := new char[CHUNK](i => ' ');
      pos, size := 0, 0;
    }

    /** memchr over what the buffer still holds. */
    method FindNewline(fd: Socket) returns (piece: string, found: bool)
      requires Valid()
      ensures |piece| <= size - pos && piece == Rest(fd)[..|piece|] && '\n' !in piece
      ensures if found then |piece| < size - pos && Rest(fd)[|piece|] == '\n' else |piece| == size - pos
    {
      var count := 0;
      while pos + count < size && buffer[pos + count] != '\n'
        invariant pos + count <= size && '\n' !in buffer[pos..pos + count]
      {
        count := count + 1;
      }
      piece := buffer[pos..pos + count];
      found := pos + count < size;
    }

    method Consume(fd: Socket, n: nat)
      requires Valid() && n <= size - pos
      modifies this`pos
      ensures Valid() && Rest(fd) == old(Rest(fd))[n..] && pos == old(pos) + n
    {
      ghost var held := buffer[pos..size];
      pos := pos + n;
      assert buffer[pos..size] == held[n..];
    }

    /** Asks the socket for more once everything held has been read; false at the end of the stream. */
    method Refill(fd: Socket) returns (more: bool)
      requires Valid() && fd.Valid()
      modifies this, buffer, fd
      ensures Valid() && fd.Valid() && Rest(fd) == old(Rest(fd))
      ensures |fd.pieces| <= |old(fd.pieces)|
      ensures more ==> pos < size && (old(pos) == old(size) ==> |fd.pieces| < |old(fd.pieces)|)
      ensures !more ==> Rest(fd) == ""
    {
      hide Flatten;
      if pos < size { return true; }
      FlattenHead(fd.pieces);
      ghost var pieces := fd.pieces;
      var n := fd.Recv(buffer);
      pos, size := 0, n;
      more := n > 0;
      assert more ==> buffer[0..n] == pieces[0];
    }

    /** One turn of read_line's loop. */
    method ReadPiece(fd: Socket, line: string) returns (verdict: Verdict, line': string)
      requires Valid() && fd.Valid() && '\n' !in line && |line| <= LINE_LIMIT
      modifies this, buffer, fd
      ensures Valid() && fd.Valid()
      ensures Turned(line + old(Rest(fd)), verdict, line', Rest(fd))
      ensures verdict == More ==>
        (pos == size && |fd.pieces| + 1 <= |old(fd.pieces)| + (if old(pos) < old(size) then 1 else 0))
    {
      hide Find, Flatten, Turned;
      line' := line;
      ghost var all := line + Rest(fd);
      var more := Refill(fd);
      if !more {
        assert all == line;
        StreamEnds(line, Rest(fd));
        return Refused, line;
      }
      var piece, found := FindNewline(fd);
      PieceTurns(line, Rest(fd), |piece|);
      if |line| + |piece| > LINE_LIMIT {
        return Refused, line;
      }
      line' := line + piece;
      Consume(fd, |piece|);
      if found {
        Consume(fd, 1);
        return Ended, line';
      }
      verdict := More;
    }

    /**
     The next line, if it ends and is short enough: it is cut from the stream, however the stream was
     cut into pieces.
     */
    method ReadLine(fd: Socket) returns (ok: bool, line: string)
      requires Valid() && fd.Valid()
      modifies this, buffer, fd
      ensures Valid() && fd.Valid()
      ensures var all := old(Rest(fd)); var i := Find(all, '\n');
        if i == |all| || i > 65536 then !ok
        else ok && line == all[..i] && Rest(fd) == all[i + 1..]
      ensures ok ==> |Rest(fd)| < |old(Rest(fd))|
    {
      hide Find, Flatten;
      line := "";
      ghost var all := Rest(fd);
      assert "" + all == all;
      while true
        invariant Valid() && fd.Valid() && Turned(all, More, line, Rest(fd))
        decreases |fd.pieces| + (if pos < size then 1 else 0)
      {
        var verdict;
        verdict, line := ReadPiece(fd, line);
        if verdict != More {
          return verdict == Ended, line;
        }
      }
    }
  }

  datatype Verdict = More | Ended | Refused

  /** Where a turn leaves the line begun in a stream: still going, ended, or refused. */
  ghost predicate Turned(all: string, verdict: Verdict, line: string, rest: string) {
    var i := Find(all, '\n');
    match verdict
    case More => line + rest == all && '\n' !in line && |line| <= LINE_LIMIT
    case Ended => i < |all| && i <= LINE_LIMIT && line == all[..i] && rest == all[i + 1..]
    case Refused => i == |all| || i > LINE_LIMIT
  }

  /** A piece without a newline makes the line longer; a newline after it ends the line; or it is too long. */
  lemma PieceTurns(line: string, rest: string, count: nat)
    requires '\n' !in line && count <= |rest| && '\n' !in rest[..count]
    ensures |line| + count > LINE_LIMIT ==> Turned(line + rest, Refused, line, rest)
    ensures |line| + count <= LINE_LIMIT ==> Turned(line + rest, More, line + rest[..count], rest[count..])
    ensures |line| + count <= LINE_LIMIT && count < |rest| && rest[count] == '\n' ==>
      Turned(line + rest, Ended, line + rest[..count], rest[count..][1..])
  {
    hide Find;
    FindBeyond(line + rest, line, rest, count, '\n');
  }

  lemma StreamEnds(line: string, rest: string)
    requires '\n' !in line
    ensures Turned(line, Refused, line, rest)
  {
    hide Find;
    FindNone(line, '\n');
  }

  /** All that is received from a stream. */
  ghost function Heard(stream: string): seq<Message> {
    Received(Lines(stream))
  }

  /** What the first line of a stream adds to that. */
  lemma FirstLine(all: string)
    ensures var i := Find(all, '\n');
      if i == |all| || i > LINE_LIMIT then Heard(all) == []
      else
        var rest := Heard(all[i + 1..]);
        Heard(all) ==
          match Parse(all[..i])
          case None => rest
          case Some(m) => if m.kind.Bye? then [m] else [m] + rest
  {
    hide Parse, Find;
    var i := Find(all, '\n');
    if i < |all| && i <= LINE_LIMIT {
      assert Lines(all)[1..] == Lines(all[i + 1..]);
    }
  }

  /** What is left to be received once the first line has been dealt with. */
  lemma LineHeard(total: seq<Message>, before: seq<Message>, stream: string)
    requires Find(stream, '\n') < |stream| && Find(stream, '\n') <= LINE_LIMIT && before + Heard(stream) == total
    ensures var i := Find(stream, '\n');
      match Parse(stream[..i])
      case None => before + Heard(stream[i + 1..]) == total
      case Some(m) => before + [m] + (if m.kind.Bye? then [] else Heard(stream[i + 1..])) == total
  {
    hide Parse, Find, Heard;
    FirstLine(stream);
    var i := Find(stream, '\n');
    if Parse(stream[..i]).Some? {
      Regrouped(before, Parse(stream[..i]).value, Heard(stream[i + 1..]));
    }
  }

  lemma Regrouped<T>(before: seq<T>, x: T, rest: seq<T>)
    ensures before + [x] + [] == before + [x] && before + [x] + rest == before + ([x] + rest)
  {
  }

  /** The server's loop over one connection. */
  method ClientLoop(fd: Socket) returns (messages: seq<Message>)
    requires fd.Valid()
    modifies fd
    ensures messages == Heard(old(Flatten(fd.pieces)))
  {
    hide Flatten, Parse, Find, Heard;
    var reader := new LineReader();
    messages := [];
    ghost var all := Flatten(fd.pieces);
    assert reader.buffer[0..0] + all == all;
    var running := true;
    while running
      invariant reader.Valid() && fd.Valid() && fresh(reader) && fresh(reader.buffer)
      invariant messages + (if running then Heard(reader.Rest(fd)) else []) == Heard(all)
      decreases running, |reader.Rest(fd)|
    {
      ghost var stream := reader.Rest(fd);
      FirstLine(stream);
      var ok, line := reader.ReadLine(fd);
      if !ok {
        running := false;
      } else {
        LineHeard(Heard(all), messages, stream);
        var m := Parse(line);
        if m.Some? {
          messages := messages + [m.value];
          running := !m.value.kind.Bye?;
        }
      }
    }
    assert messages + [] == messages;
  }

  // ------------------------------------------------------------------ there and back

  /** What send() writes, message after message. */
  function Wire(ms: seq<Message>): string {
    if ms == [] then "" else Serialize(ms[0]) + "\n" + Wire(ms[1..])
  }

  function UpToBye(ms: seq<Message>): seq<Message> {
    if ms == [] || ms[0].kind.Bye? then ms[..Min(1, |ms|)] else [ms[0]] + UpToBye(ms[1..])
  }

  predicate Carried(m: Message) {
    Canonical(m) && '\n' !in m.body && |Serialize(m)| <= LINE_LIMIT
  }

  lemma OneLine(line: string, rest: string)
    requires '\n' !in line
    ensures Lines(line + "\n" + rest) == if |line| > LINE_LIMIT then [] else [line] + Lines(rest)
  {
    var all := line + "\n" + rest;
    assert all[..|line|] == line && all[|line| + 1..] == rest;
    FindAt(all, '\n', |line|);
  }

  lemma NoNewline(m: Message)
    requires HasBody(m.kind) ==> '\n' !in m.body
    ensures '\n' !in Serialize(m)
  {
  }

  /** Messages that can be carried arrive, in order, up to and including the first BYE. */
  lemma {:induction false} MessagesComeThrough(ms: seq<Message>)
    requires forall m :: m in ms ==> Carried(m)
    ensures Heard(Wire(ms)) == UpToBye(ms)
  {
    hide Parse, Serialize;
    if ms == [] {
      assert Lines("") == [];
    } else {
      assert ms[0] in ms;
      NoNewline(ms[0]);
      OneLine(Serialize(ms[0]), Wire(ms[1..]));
      ParseInvertsSerialize(ms[0]);
      var lines := Lines(Wire(ms));
      assert lines[0] == Serialize(ms[0]) && lines[1..] == Lines(Wire(ms[1..]));
      MessagesComeThrough(ms[1..]);
    }
  }

  /** No message read off the wire has a newline in its body. */
  lemma {:induction false} ReceivedHaveNoNewline(lines: seq<string>)
    requires forall l :: l in lines ==> '\n' !in l
    ensures forall m :: m in Received(lines) ==> '\n' !in m.body
  {
    if lines != [] {
      ReceivedHaveNoNewline(lines[1..]);
      assert lines[0] in lines;
      if Parse(lines[0]).Some? {
        ParsedHasNoNewline(lines[0]);
      }
    }
  }

  lemma ParsedHasNoNewline(line: string)
    requires '\n' !in line && Parse(line).Some?
    ensures '\n' !in Parse(line).value.body
  {
    hide Find;
  }

  lemma ReceivedOne(line: string)
    ensures Received([line]) == if Parse(line).Some? then [Parse(line).value] else []
  {
    hide Parse;
  }

  /** A message sent on its own arrives as itself, if and only if it can be carried. */
  lemma CarriedExactly(m: Message)
    ensures Heard(Wire([m])) == [m] <==> Carried(m)
  {
    var line := Serialize(m);
    assert Wire([m]) == line + "\n" + "";
    assert Lines("") == [];
    if '\n' in m.body {
      ReceivedHaveNoNewline(Lines(Wire([m])));
      assert m in [m];
    } else {
      NoNewline(m);
      OneLine(line, "");
      ParseInvertsSerialize(m);
      hide Parse, Serialize, Lines, Wire;
      assert [line] + [] == [line];
      ReceivedOne(line);
    }
  }
}
