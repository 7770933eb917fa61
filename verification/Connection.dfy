/** The input side of a connection and its state machine, dserver/servernet.c: try_read_command, try_read_network,
    conn_shrink, conn_set_state and drive_machine.

    The buffer rbuf is a sequence of rsize bytes; rcurr is an index into it.  What the calls of read, sendmsg and
    accept return is given as scripts.  `received`, `consumed` and `dispatched` record the bytes read, the part
    of them taken off as lines, and the commands handed to process_command. */
module Connection {
  import opened Sequences

  type Byte = x: int | 0 <= x < 256

  const NEWLINE: Byte := 10
  const RETURN: Byte := 13
  const NUL: Byte := 0

  const DATA_BUFFER_SIZE := 2048
  const READ_BUFFER_HIGHWAT := 8192
  const AE_READABLE := 1
  const AE_WRITABLE := 2

  // ----------------------------------------------------------------- lines and commands

  /** The index of the first `b`, or the length. */
  function IndexOf(s: seq<Byte>, b: Byte): (n: nat)
    ensures n <= |s|
  {
    if s == [] || s[0] == b then 0 else 1 + IndexOf(s[1..], b)
  }

  ghost predicate FirstAt(s: seq<Byte>, b: Byte, n: nat) {
    n <= |s| && (forall i :: 0 <= i < n ==> s[i] != b) && (n < |s| ==> s[n] == b)
  }

  lemma {:induction false} IndexOfIs(s: seq<Byte>, b: Byte)
    ensures FirstAt(s, b, IndexOf(s, b))
  {
    if s != [] && s[0] != b { IndexOfIs(s[1..], b); }
  }

  lemma {:induction false} IndexOfUnique(s: seq<Byte>, b: Byte, n: nat)
    requires FirstAt(s, b, n)
    ensures IndexOf(s, b) == n
  {
    if s != [] && s[0] != b { IndexOfUnique(s[1..], b, n - 1); }
  }

  /** Where the line that ends at index n is cut: before a carriage return, if the line has two characters or more. */
  function LineEnd(s: seq<Byte>, n: nat): (e: nat)
    requires n < |s|
    ensures e <= n
  {
    if n > 1 && s[n - 1] == RETURN then n - 1 else n
  }

  /** The command in a line, as the C string that process_command sees. */
  function Command(s: seq<Byte>, n: nat): seq<Byte>
    requires n < |s|
  {
    var text := s[..LineEnd(s, n)];
    text[..IndexOf(text, NUL)]
  }

  /** The commands in a stream: one for each complete line. */
  function Commands(s: seq<Byte>): seq<seq<Byte>> {
    var n := IndexOf(s, NEWLINE);
    if n == |s| then [] else [Command(s, n)] + Commands(s[n + 1..])
  }

  /** Nothing but complete lines. */
  predicate Whole(s: seq<Byte>) {
    s == [] || s[|s| - 1] == NEWLINE
  }

  lemma IndexOfPrefix(s: seq<Byte>, t: seq<Byte>, b: Byte)
    requires IndexOf(s, b) < |s|
    ensures IndexOf(s + t, b) == IndexOf(s, b)
  {
    IndexOfIs(s, b);
    IndexOfUnique(s + t, b, IndexOf(s, b));
  }

  lemma CommandPrefix(s: seq<Byte>, t: seq<Byte>, n: nat)
    requires n < |s|
    ensures Command(s + t, n) == Command(s, n)
  {
    assert LineEnd(s + t, n) == LineEnd(s, n);
    assert (s + t)[..LineEnd(s, n)] == s[..LineEnd(s, n)];
  }

  /** Cutting a stream between two lines cuts its commands there. */
  lemma {:induction false} CommandsAppend(s: seq<Byte>, t: seq<Byte>)
    requires Whole(s)
    ensures Commands(s + t) == Commands(s) + Commands(t)
  {
    if s == [] {
      assert s + t == t && IndexOf(s, NEWLINE) == 0;
    } else {
      var n := IndexOf(s, NEWLINE);
      IndexOfIs(s, NEWLINE);
      assert n < |s| && Whole(s[n + 1..]);
      IndexOfPrefix(s, t, NEWLINE);
      CommandPrefix(s, t, n);
      CutConcat(s, t, n + 1);
      hide Command, IndexOf;
      CommandsAppend(s[n + 1..], t);
      Assoc([Command(s, n)], Commands(s[n + 1..]), Commands(t));
    }
  }

  /** A stream of one line. */
  lemma OneLine(s: seq<Byte>, n: nat)
    requires n == IndexOf(s, NEWLINE) < |s|
    ensures Whole(s[..n + 1]) && Commands(s[..n + 1]) == [Command(s, n)]
  {
    var line, rest := s[..n + 1], s[n + 1..];
    IndexOfIs(s, NEWLINE);
    IndexOfUnique(line, NEWLINE, n);
    hide IndexOf;
    assert s == line + rest;
    CommandPrefix(line, rest, n);
    NoCommands(line[n + 1..]);
    hide Command;
  }

  lemma NoCommands(s: seq<Byte>)
    requires FirstAt(s, NEWLINE, |s|)
    ensures IndexOf(s, NEWLINE) == |s| && Commands(s) == []
  {
    IndexOfUnique(s, NEWLINE, |s|);
  }

  lemma WholeAppend(s: seq<Byte>, t: seq<Byte>)
    requires Whole(s) && Whole(t)
    ensures Whole(s + t)
  {
    if t == [] { assert s + t == s; }
  }

  lemma NoLine(pending: seq<Byte>)
    ensures IndexOf(pending, NEWLINE) == |pending| <==> Commands(pending) == []
  {
  }

  /** One more line is taken off the stream. */
  lemma TakeLine(consumed: seq<Byte>, pending: seq<Byte>, n: nat)
    requires Whole(consumed) && n == IndexOf(pending, NEWLINE) < |pending|
    ensures var consumed' := consumed + pending[..n + 1];
            && Whole(consumed') && Commands(consumed') == Commands(consumed) + [Command(pending, n)]
            && consumed + pending == consumed' + pending[n + 1..]
  {
    OneLine(pending, n);
    CommandsAppend(consumed, pending[..n + 1]);
    WholeAppend(consumed, pending[..n + 1]);
    hide Commands, Command, IndexOf;
    assert pending == pending[..n + 1] + pending[n + 1..];
  }

  /** A command as a client writes it: no newline or NUL in it, not empty, no carriage return at its end. */
  predicate Sendable(c: seq<Byte>) {
    c != [] && NEWLINE !in c && NUL !in c && c[|c| - 1] != RETURN
  }

  /** The lines that a client sends, ended as it likes. */
  function Stream(cs: seq<seq<Byte>>, crlf: bool): seq<Byte> {
    if cs == [] then [] else cs[0] + Ending(crlf) + Stream(cs[1..], crlf)
  }

  function Ending(crlf: bool): seq<Byte> {
    if crlf then [RETURN, NEWLINE] else [NEWLINE]
  }

  lemma CommandOfLine(c: seq<Byte>, crlf: bool)
    requires Sendable(c)
    ensures Commands(c + Ending(crlf)) == [c] && Whole(c + Ending(crlf))
  {
    var line := c + Ending(crlf);
    var n := |line| - 1;
    IndexOfUnique(line, NEWLINE, n);
    var text := line[..LineEnd(line, n)];
    assert text == c;
    IndexOfUnique(c, NUL, |c|);
    hide IndexOf;
    assert Command(line, n) == c[..|c|] == c;
    NoCommands(line[n + 1..]);
  }

  /** A NUL ends the text of a command early. */
  lemma CommandUpToNul(c: seq<Byte>, more: seq<Byte>)
    requires NUL !in c && NEWLINE !in c && NEWLINE !in more
    ensures Commands(c + [NUL] + more + [NEWLINE]) == [c]
  {
    var line := c + [NUL] + more + [NEWLINE];
    var n := |line| - 1;
    IndexOfUnique(line, NEWLINE, n);
    var text := line[..LineEnd(line, n)];
    assert text[|c|] == NUL && text[..|c|] == c;
    IndexOfUnique(text, NUL, |c|);
    hide IndexOf;
    NoCommands(line[n + 1..]);
  }

  /** A line of nothing but a carriage return is a command of that. */
  lemma LoneReturn()
    ensures Commands([RETURN, NEWLINE]) == [[RETURN]]
  {
    var line := [RETURN, NEWLINE];
    IndexOfUnique(line, NEWLINE, 1);
    assert line[..1] == [RETURN];
    IndexOfUnique([RETURN], NUL, 1);
    hide IndexOf;
    assert [RETURN][..1] == [RETURN];
    NoCommands(line[2..]);
  }

  /** The commands found in a client's lines are the ones it sent. */
  lemma {:induction false} StreamCommands(cs: seq<seq<Byte>>, crlf: bool)
    requires forall i :: 0 <= i < |cs| ==> Sendable(cs[i])
    ensures Commands(Stream(cs, crlf)) == cs
  {
    if cs == [] {
      NoCommands([]);
    } else {
      CommandOfLine(cs[0], crlf);
      StreamCommands(cs[1..], crlf);
      CommandsAppend(cs[0] + Ending(crlf), Stream(cs[1..], crlf));
    }
  }

  /** A stream has as many commands as newlines. */
  lemma {:induction false} CommandCount(s: seq<Byte>)
    ensures |Commands(s)| == multiset(s)[NEWLINE]
  {
    var n := IndexOf(s, NEWLINE);
    IndexOfIs(s, NEWLINE);
    if n < |s| {
      CommandCount(s[n + 1..]);
      OneNewline(s, n);
    } else {
      assert NEWLINE !in s;
    }
    hide Command, IndexOf;
  }

  lemma OneNewline(s: seq<Byte>, n: nat)
    requires n < |s| && FirstAt(s, NEWLINE, n)
    ensures multiset(s)[NEWLINE] == 1 + multiset(s[n + 1..])[NEWLINE]
  {
    assert s == s[..n] + [s[n]] + s[n + 1..];
    assert NEWLINE !in s[..n];
  }

  lemma NoneInEither(s: seq<Byte>, t: seq<Byte>)
    requires FirstAt(s, NEWLINE, |s|) && NEWLINE !in t
    ensures FirstAt(s + t, NEWLINE, |s + t|)
  {
  }

  lemma {:induction false} NoMoreCommands(s: seq<Byte>, t: seq<Byte>)
    requires NEWLINE !in t
    ensures Commands(s + t) == Commands(s)
  {
    var n := IndexOf(s, NEWLINE);
    if n < |s| {
      IndexOfPrefix(s, t, NEWLINE);
      CommandPrefix(s, t, n);
      CutConcat(s, t, n + 1);
      hide Command, IndexOf;
      NoMoreCommands(s[n + 1..], t);
    } else {
      IndexOfIs(s, NEWLINE);
      NoneInEither(s, t);
      NoCommands(s + t);
    }
  }

  /** More bytes bring more commands exactly if they bring a newline. */
  lemma NewLines(before: seq<Byte>, more: seq<Byte>)
    ensures Commands(before + more) == Commands(before) <==> NEWLINE !in more
  {
    if NEWLINE !in more {
      NoMoreCommands(before, more);
    } else {
      CommandCount(before + more);
      CommandCount(before);
    }
  }

  // ----------------------------------------------------------------- what the calls return

  datatype Read = Data(bytes: seq<Byte>) | Eof | Again | Fault
  datatype Send = AllSent | SomeSent | WouldBlock | SendFault
  datatype Accept = NewConnection | NoConnection

  /** What the following calls of read, sendmsg and accept return. */
  datatype Net = Net(input: seq<Read>, sends: seq<Send>, accepts: seq<Accept>)

  /** The bytes of a script of reads. */
  function Bytes(script: seq<Read>): seq<Byte> {
    if script == [] then [] else (if script[0].Data? then script[0].bytes else []) + Bytes(script[1..])
  }

  /** How much is still to come from a script of reads. */
  function Work(script: seq<Read>): nat {
    if script == [] then 0 else 1 + (if script[0].Data? then |script[0].bytes| else 0) + Work(script[1..])
  }

  /** A read of no bytes is an end of file. */
  predicate Proper(script: seq<Read>) {
    forall i :: 0 <= i < |script| && script[i].Data? ==> script[i].bytes != []
  }

  lemma ProperTail(script: seq<Read>)
    requires Proper(script) && script != []
    ensures Proper(script[1..]) && Work(script[1..]) < Work(script)
    ensures script[0].Data? ==> script[0].bytes != []
  {
  }

  /** The script after a read that took n bytes of its first chunk. */
  function AfterRead(script: seq<Read>, n: nat): seq<Read>
    requires script != [] && script[0].Data? && n <= |script[0].bytes|
  {
    if n < |script[0].bytes| then [Data(script[0].bytes[n..])] + script[1..] else script[1..]
  }

  lemma AfterReadWork(script: seq<Read>, n: nat)
    requires Proper(script) && script != [] && script[0].Data? && 0 < n <= |script[0].bytes|
    ensures Proper(AfterRead(script, n)) && Work(AfterRead(script, n)) < Work(script)
    ensures n == |script[0].bytes| ==> AfterRead(script, n) == script[1..]
  {
    var rest := AfterRead(script, n);
    ProperTail(script);
    if n < |script[0].bytes| {
      assert rest[1..] == script[1..];
      forall i | 0 <= i < |rest| && rest[i].Data? ensures rest[i].bytes != [] {
        assert i > 0 ==> rest[i] == script[i];
      }
    }
  }

  lemma AfterReadBytes(script: seq<Read>, n: nat)
    requires script != [] && script[0].Data? && n <= |script[0].bytes|
    ensures Bytes(script) == script[0].bytes[..n] + Bytes(AfterRead(script, n))
  {
    var bytes, rest := script[0].bytes, AfterRead(script, n);
    assert bytes == bytes[..n] + bytes[n..];
    if n < |bytes| {
      assert rest[0].bytes == bytes[n..] && rest[1..] == script[1..];
      Assoc(bytes[..n], bytes[n..], Bytes(script[1..]));
    } else {
      assert bytes[..n] == bytes;
    }
  }

  // ----------------------------------------------------------------- one call of try_read_network

  /** What the call reads, whether it met the end of the stream or an error, what is left of the script, whether that
      ran out, and the size of the buffer afterwards. */
  datatype Filled = Filled(bytes: seq<Byte>, closed: bool, rest: seq<Read>, dry: bool, size: nat)

  /** A full buffer is doubled before the next read. */
  function Room(size: nat, used: nat): nat {
    if used >= size then 2 * size else size
  }

  /** With `used` of `size` bytes of the buffer taken: reads go on as long as they fill the buffer. */
  function Fill(size: nat, used: nat, script: seq<Read>): Filled
    requires size > 0 && used <= size && Proper(script)
    decreases Work(script)
  {
    var room := Room(size, used);
    if script == [] then Filled([], false, [], true, room)
    else
      match script[0]
      case Eof => Filled([], true, script[1..], false, room)
      case Fault => Filled([], true, script[1..], false, room)
      case Again => Filled([], false, script[1..], false, room)
      case Data(bytes) =>
        var n := if |bytes| < room - used then |bytes| else room - used;
        AfterReadWork(script, n);
        if n < room - used then Filled(bytes, false, script[1..], false, room)
        else
          var r := Fill(room, room, AfterRead(script, n));
          r.(bytes := bytes[..n] + r.bytes)
  }

  /** A chunk that fills the buffer. */
  lemma FillMore(size: nat, used: nat, script: seq<Read>, rest: seq<Read>)
    requires size > 0 && used <= size && Proper(script) && script != [] && script[0].Data?
    requires var n := Room(size, used) - used; |script[0].bytes| >= n && rest == AfterRead(script, n) && Proper(rest)
    ensures var n, r := Room(size, used) - used, Fill(Room(size, used), Room(size, used), rest);
            Fill(size, used, script) == r.(bytes := script[0].bytes[..n] + r.bytes)
  {
  }

  lemma FillShort(size: nat, used: nat, script: seq<Read>)
    requires size > 0 && used <= size && Proper(script) && script != [] && script[0].Data?
    requires |script[0].bytes| < Room(size, used) - used
    ensures Fill(size, used, script) == Filled(script[0].bytes, false, script[1..], false, Room(size, used))
  {
  }

  ghost predicate Conserved(used: nat, size: nat, script: seq<Read>, f: Filled) {
    && Bytes(script) == f.bytes + Bytes(f.rest) && Proper(f.rest) && used + |f.bytes| <= f.size && size <= f.size
    && !(f.closed && f.dry) && Work(f.rest) <= Work(script)
    && (f.bytes != [] || !f.dry ==> Work(f.rest) < Work(script))
  }

  lemma ConservedMore(size: nat, used: nat, script: seq<Read>, n: nat, rest: seq<Read>, r: Filled, f: Filled)
    requires script != [] && script[0].Data? && n <= |script[0].bytes| && rest == AfterRead(script, n)
    requires Work(rest) < Work(script) && Conserved(size, size, rest, r) && used + n <= size
    requires f == r.(bytes := script[0].bytes[..n] + r.bytes)
    ensures Conserved(used, size, script, f)
  {
    hide Bytes, Work, Proper, AfterRead;
    AfterReadBytes(script, n);
    Assoc(script[0].bytes[..n], r.bytes, Bytes(r.rest));
  }

  /** Nothing is lost or made up: the bytes of a script are the ones read followed by those left. */
  lemma {:induction false} FillConserves(size: nat, used: nat, script: seq<Read>)
    requires size > 0 && used <= size && Proper(script)
    ensures Conserved(used, size, script, Fill(size, used, script))
    decreases Work(script)
  {
    if script != [] {
      ProperTail(script);
      if script[0].Data? {
        hide Work, Proper, Fill, Bytes;
        var room, bytes := Room(size, used), script[0].bytes;
        var n := if |bytes| < room - used then |bytes| else room - used;
        var rest := AfterRead(script, n);
        AfterReadWork(script, n);
        if n == room - used {
          FillConserves(room, room, rest);
          FillMore(size, used, script, rest);
          hide Conserved, AfterRead;
          ConservedMore(room, used, script, n, rest, Fill(room, room, rest), Fill(size, used, script));
          ConservedSize(room, size, used, script, Fill(size, used, script));
        } else {
          AfterReadBytes(script, n);
          FillShort(size, used, script);
          assert bytes[..n] == bytes;
        }
      }
    }
  }

  lemma ConservedSize(room: nat, size: nat, used: nat, script: seq<Read>, f: Filled)
    requires Conserved(used, room, script, f) && size <= room
    ensures Conserved(used, size, script, f)
  {
  }

  ghost predicate Joined(have: seq<Byte>, more: Filled, whole: Filled) {
    whole == more.(bytes := have + more.bytes)
  }

  lemma JoinedEnd(have: seq<Byte>, more: Filled, whole: Filled)
    requires Joined(have, more, whole) && more.bytes == []
    ensures whole == more.(bytes := have)
  {
  }

  lemma JoinedMore(have: seq<Byte>, read: seq<Byte>, more: Filled, whole: Filled)
    requires Joined(have, more.(bytes := read + more.bytes), whole)
    ensures Joined(have + read, more, whole)
  {
    Assoc(have, read, more.bytes);
  }

  lemma FillRoom(size: nat, used: nat, script: seq<Read>)
    requires size > 0 && used <= size && Proper(script)
    ensures Fill(size, used, script) == Fill(Room(size, used), used, script)
  {
  }

  /** A read that brings no data ends the call. */
  lemma FillEnds(have: seq<Byte>, size: nat, used: nat, script: seq<Read>, whole: Filled)
    requires used < size && Proper(script) && (script == [] || !script[0].Data?)
    requires Joined(have, Fill(size, used, script), whole)
    ensures whole == if script == [] then Filled(have, false, [], true, size)
                     else Filled(have, !script[0].Again?, script[1..], false, size)
  {
    JoinedEnd(have, Fill(size, used, script), whole);
  }

  /** A read of data: the call goes on if the buffer is full. */
  lemma FillData(size: nat, used: nat, script: seq<Read>, res: nat, more: Filled)
    requires used < size && Proper(script) && script != [] && script[0].Data?
    requires res == if |script[0].bytes| < size - used then |script[0].bytes| else size - used
    requires Proper(AfterRead(script, res))
    requires more == if res < size - used then Filled([], false, script[1..], false, size)
                     else Fill(size, size, AfterRead(script, res))
    ensures Fill(size, used, script) == more.(bytes := script[0].bytes[..res] + more.bytes)
  {
    var bytes := script[0].bytes;
    assert bytes[..|bytes|] == bytes && bytes + [] == bytes;
  }

  // ----------------------------------------------------------------- the state machine on values

  datatype ConnState = Listening | Reading | Writing | MultiWriting | Closing

  /** A connection: `pending` are the bytes in its buffer; `received` and `dispatched` are history. */
  datatype Machine = Machine(
    size: nat,
    pending: seq<Byte>,
    state: ConnState,
    go: ConnState,             // write_and_go
    flags: int,                // ev_flags
    received: seq<Byte>,
    dispatched: seq<seq<Byte>>)

  /** Unfinished: a script has run out before drive_machine returned. */
  datatype Result = Continues | Returned1 | Returned0 | Unfinished

  datatype Outcome = Outcome(m: Machine, net: Net, result: Result)

  predicate Sized(m: Machine) {
    m.size > 0 && |m.pending| <= m.size && (m.go == Reading || m.go == Closing)
  }

  /** conn_set_state, with conn_shrink on the way to the reading state. */
  function WithState(m: Machine, s: ConnState): Machine {
    var shrinks := s == Reading && m.state != Reading && m.size > READ_BUFFER_HIGHWAT && |m.pending| < DATA_BUFFER_SIZE;
    m.(state := s, size := if shrinks then DATA_BUFFER_SIZE else m.size)
  }

  /** The first pending line is dispatched; a command that is answered leads to the writing state. */
  function Dispatched(answers: seq<Byte> -> bool, m: Machine): Machine
    requires IndexOf(m.pending, NEWLINE) < |m.pending|
  {
    var n := IndexOf(m.pending, NEWLINE);
    var c := Command(m.pending, n);
    var m' := m.(pending := m.pending[n + 1..], dispatched := m.dispatched + [c]);
    if answers(c) then m'.(state := Writing, go := Reading) else m'
  }

  function Took(m: Machine, bytes: seq<Byte>): Machine {
    m.(pending := m.pending + bytes, received := m.received + bytes)
  }

  lemma TookNothing(m: Machine)
    ensures Took(m, []) == m
  {
  }

  lemma TookMore(m: Machine, have: seq<Byte>, bytes: seq<Byte>, size: nat)
    ensures Took(Took(m, have).(size := size), bytes) == Took(m, have + bytes).(size := size)
  {
    Assoc(m.pending, have, bytes);
    Assoc(m.received, have, bytes);
  }

  /** After a call of try_read_network. */
  function Networked(m: Machine, f: Filled): Machine {
    Took(m, f.bytes).(size := f.size, state := if f.closed then Closing else m.state)
  }

  function AcceptTurn(m: Machine, net: Net): Outcome {
    if net.accepts == [] then Outcome(m, net, Unfinished)
    else Outcome(m, net.(accepts := net.accepts[1..]), if net.accepts[0].NoConnection? then Returned1 else Continues)
  }

  /** A command if there is one, else a call of try_read_network. */
  function ReadTurn(answers: seq<Byte> -> bool, m: Machine, net: Net): Outcome
    requires Sized(m) && Proper(net.input)
  {
    if IndexOf(m.pending, NEWLINE) < |m.pending| then Outcome(Dispatched(answers, m), net, Continues)
    else
      var f := Fill(m.size, |m.pending|, net.input);
      var m', net' := Networked(m, f), net.(input := f.rest);
      if f.dry then Outcome(m', net', Unfinished)
      else if f.closed || f.bytes != [] then Outcome(m', net', Continues)
      else Outcome(m'.(flags := AE_READABLE), net', Returned1)
  }

  /** One call of transmit. */
  function WriteTurn(m: Machine, net: Net): Outcome {
    if net.sends == [] then Outcome(m, net, Unfinished)
    else
      var net' := net.(sends := net.sends[1..]);
      match net.sends[0]
      case AllSent => Outcome(WithState(m, if m.state == MultiWriting then Reading else m.go), net', Continues)
      case SomeSent => Outcome(m, net', Continues)
      case SendFault => Outcome(WithState(m, Closing), net', Continues)
      case WouldBlock => Outcome(m.(flags := AE_WRITABLE), net', Returned1)
  }

  /** One turn of the loop of drive_machine. */
  function Turn(answers: seq<Byte> -> bool, m: Machine, net: Net): Outcome
    requires Sized(m) && Proper(net.input)
  {
    match m.state
    case Listening => AcceptTurn(m, net)
    case Reading => ReadTurn(answers, m, net)
    case Closing => Outcome(m.(flags := 0), net, Returned0)
    case _ => WriteTurn(m, net)
  }

  function Rank(net: Net): nat {
    Work(net.input) + |net.sends| + |net.accepts|
  }

  /** A turn after which the loop goes on has used something up. */
  ghost predicate Progress(m: Machine, net: Net, o: Outcome) {
    && Sized(o.m) && Proper(o.net.input)
    && (o.result == Continues ==> Rank(o.net) < Rank(net) || (o.net == net && |o.m.pending| < |m.pending|))
  }

  lemma ReadTurnProgress(answers: seq<Byte> -> bool, m: Machine, net: Net)
    requires Sized(m) && Proper(net.input)
    ensures Progress(m, net, ReadTurn(answers, m, net))
  {
    hide Fill, Work, Bytes, Proper, IndexOf, Command;
    FillConserves(m.size, |m.pending|, net.input);
  }

  lemma WriteTurnProgress(m: Machine, net: Net)
    requires Sized(m) && Proper(net.input)
    ensures Progress(m, net, WriteTurn(m, net))
  {
    hide Work, Proper;
  }

  lemma TurnProgress(answers: seq<Byte> -> bool, m: Machine, net: Net)
    requires Sized(m) && Proper(net.input)
    ensures Progress(m, net, Turn(answers, m, net))
  {
    ReadTurnProgress(answers, m, net);
    WriteTurnProgress(m, net);
    hide ReadTurn, WriteTurn, Work, Proper;
  }

  /** drive_machine */
  function Run(answers: seq<Byte> -> bool, m: Machine, net: Net): Outcome
    requires Sized(m) && Proper(net.input)
    decreases Rank(net), |m.pending|
  {
    TurnProgress(answers, m, net);
    var o := Turn(answers, m, net);
    if o.result == Continues then Run(answers, o.m, o.net) else o
  }

  function RunFrom(answers: seq<Byte> -> bool, m: Machine, net: Net, result: Result): Outcome
    requires Sized(m) && Proper(net.input)
  {
    if result == Continues then Run(answers, m, net) else Outcome(m, net, result)
  }

  // ----------------------------------------------------------------- what a run promises

  /** The bytes received are whole lines, whose commands have been dispatched, followed by the pending ones. */
  ghost predicate Framed(received: seq<Byte>, pending: seq<Byte>, dispatched: seq<seq<Byte>>) {
    exists consumed :: Whole(consumed) && received == consumed + pending && dispatched == Commands(consumed)
  }

  lemma FramedStart()
    ensures Framed([], [], [])
  {
    assert Whole([]) && Commands([]) == [];
  }

  lemma FramedIs(received: seq<Byte>, pending: seq<Byte>, dispatched: seq<seq<Byte>>, consumed: seq<Byte>)
    requires Whole(consumed) && received == consumed + pending && dispatched == Commands(consumed)
    ensures Framed(received, pending, dispatched)
  {
  }

  lemma FramedLine(received: seq<Byte>, pending: seq<Byte>, dispatched: seq<seq<Byte>>)
    requires Framed(received, pending, dispatched) && IndexOf(pending, NEWLINE) < |pending|
    ensures var n := IndexOf(pending, NEWLINE); Framed(received, pending[n + 1..], dispatched + [Command(pending, n)])
  {
    var consumed :| Whole(consumed) && received == consumed + pending && dispatched == Commands(consumed);
    var n := IndexOf(pending, NEWLINE);
    hide *;
    TakeLine(consumed, pending, n);
    FramedIs(received, pending[n + 1..], dispatched + [Command(pending, n)], consumed + pending[..n + 1]);
  }

  lemma FramedMore(received: seq<Byte>, pending: seq<Byte>, dispatched: seq<seq<Byte>>, bytes: seq<Byte>)
    requires Framed(received, pending, dispatched)
    ensures Framed(received + bytes, pending + bytes, dispatched)
  {
    var consumed :| Whole(consumed) && received == consumed + pending && dispatched == Commands(consumed);
    Assoc(consumed, pending, bytes);
  }

  lemma FramedMeans(received: seq<Byte>, pending: seq<Byte>, dispatched: seq<seq<Byte>>)
    requires Framed(received, pending, dispatched)
    ensures Commands(received) == dispatched + Commands(pending)
  {
    var consumed :| Whole(consumed) && received == consumed + pending && dispatched == Commands(consumed);
    CommandsAppend(consumed, pending);
  }

  ghost predicate MachineOk(m: Machine) {
    Sized(m) && Framed(m.received, m.pending, m.dispatched) && (m.state == Listening ==> m.flags == AE_READABLE)
  }

  /** The readiness that a state waits for. */
  function Awaited(s: ConnState): int {
    if s == Listening || s == Reading then AE_READABLE else AE_WRITABLE
  }

  /** What drive_machine leaves behind when it stops: m0 and net0 are what it started from. */
  ghost predicate Promised(m0: Machine, net0: Net, o: Outcome) {
    && MachineOk(o.m) && Proper(o.net.input)
    && o.m.received + Bytes(o.net.input) == m0.received + Bytes(net0.input)
    && (o.result == Returned1 ==> o.m.state != Closing && o.m.flags == Awaited(o.m.state))
    && (o.result == Returned1 && o.m.state == Reading ==> Commands(o.m.pending) == [])
    && (o.result == Returned0 ==> o.m.state == Closing)
  }

  lemma ReadTurnKeeps(answers: seq<Byte> -> bool, m: Machine, net: Net)
    requires MachineOk(m) && Proper(net.input) && m.state == Reading
    ensures Promised(m, net, ReadTurn(answers, m, net))
  {
    hide Fill, Bytes, Proper, Framed, Commands, Command;
    if IndexOf(m.pending, NEWLINE) < |m.pending| {
      FramedLine(m.received, m.pending, m.dispatched);
    } else {
      hide IndexOf;
      var f := Fill(m.size, |m.pending|, net.input);
      FillConserves(m.size, |m.pending|, net.input);
      FramedMore(m.received, m.pending, m.dispatched, f.bytes);
      Assoc(m.received, f.bytes, Bytes(f.rest));
      NoLine(m.pending);
      assert f.bytes == [] ==> m.pending + f.bytes == m.pending;
    }
  }

  lemma WriteTurnKeeps(m: Machine, net: Net)
    requires MachineOk(m) && Proper(net.input) && (m.state == Writing || m.state == MultiWriting)
    ensures Promised(m, net, WriteTurn(m, net))
  {
    hide Bytes, Proper, Framed, Commands;
  }

  lemma IdleTurnKeeps(answers: seq<Byte> -> bool, m: Machine, net: Net)
    requires MachineOk(m) && Proper(net.input) && (m.state == Listening || m.state == Closing)
    ensures Promised(m, net, Turn(answers, m, net))
  {
    hide Bytes, Proper, Framed, Commands, ReadTurn, WriteTurn;
  }

  lemma TurnKeeps(answers: seq<Byte> -> bool, m: Machine, net: Net)
    requires MachineOk(m) && Proper(net.input)
    ensures Promised(m, net, Turn(answers, m, net))
  {
    hide ReadTurn, WriteTurn, MachineOk, Bytes, Proper, Framed, Commands;
    if m.state == Reading {
      ReadTurnKeeps(answers, m, net);
    } else if m.state == Writing || m.state == MultiWriting {
      WriteTurnKeeps(m, net);
    } else {
      IdleTurnKeeps(answers, m, net);
    }
  }

  /** Whatever read, sendmsg and accept return: every byte of the input is received or still to come; when drive_machine
      returns 1 ev_flags is the readiness that the state waits for; it waits for input only when every complete line has
      been dispatched; it returns 0 only closed. */
  lemma {:induction false} RunKeeps(answers: seq<Byte> -> bool, m: Machine, net: Net)
    requires MachineOk(m) && Proper(net.input)
    ensures Promised(m, net, Run(answers, m, net)) && Run(answers, m, net).result != Continues
    decreases Rank(net), |m.pending|
  {
    TurnProgress(answers, m, net);
    TurnKeeps(answers, m, net);
    var o := Turn(answers, m, net);
    hide Turn, MachineOk, Bytes, Proper, Commands, Awaited;
    if o.result == Continues { RunKeeps(answers, o.m, o.net); }
  }

  /** When it waits for input the commands dispatched are exactly those of the bytes received; always a prefix. */
  lemma WaitsWithAllDispatched(answers: seq<Byte> -> bool, m: Machine, net: Net)
    requires MachineOk(m) && Proper(net.input)
    ensures var o := Run(answers, m, net);
            && o.m.dispatched <= Commands(o.m.received)
            && (o.result == Returned1 && o.m.state == Reading ==> o.m.dispatched == Commands(o.m.received))
  {
    RunKeeps(answers, m, net);
    var o := Run(answers, m, net);
    FramedMeans(o.m.received, o.m.pending, o.m.dispatched);
    hide Run, Framed, Commands;
  }

  /** The commands dispatched do not depend on the chunks: two inputs with the same bytes that are both read to the end,
      with the connection waiting for more, have the same effect, whatever is answered and however sending goes. */
  lemma ChunksDoNotMatter(answers: seq<Byte> -> bool, m: Machine, net1: Net, net2: Net)
    requires MachineOk(m) && Proper(net1.input) && Proper(net2.input) && Bytes(net1.input) == Bytes(net2.input)
    ensures var o1, o2 := Run(answers, m, net1), Run(answers, m, net2);
            && o1.result == o2.result == Returned1 && o1.m.state == o2.m.state == Reading
            && Bytes(o1.net.input) == Bytes(o2.net.input) == [] ==>
              o1.m.received == o2.m.received && o1.m.dispatched == o2.m.dispatched
  {
    RunKeeps(answers, m, net1);
    RunKeeps(answers, m, net2);
    WaitsWithAllDispatched(answers, m, net1);
    WaitsWithAllDispatched(answers, m, net2);
    var o1, o2 := Run(answers, m, net1), Run(answers, m, net2);
    hide Run, Bytes, Commands, MachineOk;
    assert o1.m.received + [] == o1.m.received && o2.m.received + [] == o2.m.received;
  }

  // ----------------------------------------------------------------- answers and sends

  function AnswerCount(answers: seq<Byte> -> bool, commands: seq<seq<Byte>>): nat {
    if commands == [] then 0
    else AnswerCount(answers, commands[..|commands| - 1]) + if answers(commands[|commands| - 1]) then 1 else 0
  }

  function Count<T(==)>(s: seq<T>, x: T): nat {
    if s == [] then 0 else (if s[0] == x then 1 else 0) + Count(s[1..], x)
  }

  lemma {:induction false} CountAppend<T>(s: seq<T>, t: seq<T>, x: T)
    ensures Count(s + t, x) == Count(s, x) + Count(t, x)
  {
    if s == [] {
      assert s + t == t;
    } else {
      assert (s + t)[1..] == s[1..] + t;
      CountAppend(s[1..], t, x);
    }
  }

  /** 1 while an answer is being sent. */
  function Owed(s: ConnState): nat {
    if s == Writing || s == MultiWriting then 1 else 0
  }

  /** What is used up of a script. */
  ghost predicate Uses<T>(before: seq<T>, used: seq<T>, after: seq<T>) {
    before == used + after
  }

  /** From m and net to o: every answered command, and the answer being sent at the start, is either sent to the end by
      a send that completes it, or cut short by a send that fails, which closes the connection, or still being sent.  A
      send that would block ends the run, which then waits in a writing state; no other run ends in one that way.  An
      accept that finds no connection ends the run in the listening state. */
  ghost predicate Balanced(answers: seq<Byte> -> bool, m: Machine, sent: seq<Send>, accepted: seq<Accept>, o: Outcome) {
    && AnswerCount(answers, o.m.dispatched) + Owed(m.state) ==
       AnswerCount(answers, m.dispatched) + Count(sent, AllSent) + Count(sent, SendFault) + Owed(o.m.state)
    && (Count(sent, SendFault) > 0 ==> o.m.state == Closing)
    && Count(sent, WouldBlock) == (if o.result == Returned1 then Owed(o.m.state) else 0)
    && Count(accepted, NoConnection) == (if o.result == Returned1 && o.m.state == Listening then 1 else 0)
  }

  lemma CountOne<T>(x: T, y: T)
    ensures Count([x], y) == (if x == y then 1 else 0) && Count<T>([], y) == 0
  {
    assert [x][1..] == [];
  }

  lemma AnswerSnoc(answers: seq<Byte> -> bool, commands: seq<seq<Byte>>, c: seq<Byte>)
    ensures AnswerCount(answers, commands + [c]) == AnswerCount(answers, commands) + if answers(c) then 1 else 0
  {
    assert (commands + [c])[..|commands|] == commands;
  }

  lemma ReadTurnBalanced(answers: seq<Byte> -> bool, m: Machine, net: Net)
    requires Sized(m) && Proper(net.input) && m.state == Reading
    ensures Balanced(answers, m, [], [], ReadTurn(answers, m, net))
    ensures ReadTurn(answers, m, net).net == net.(input := ReadTurn(answers, m, net).net.input)
  {
    hide Fill, IndexOf, Command, AnswerCount, Proper;
    if IndexOf(m.pending, NEWLINE) < |m.pending| {
      AnswerSnoc(answers, m.dispatched, Command(m.pending, IndexOf(m.pending, NEWLINE)));
    }
  }

  lemma WriteTurnBalanced(answers: seq<Byte> -> bool, m: Machine, net: Net)
    requires Sized(m) && (m.state == Writing || m.state == MultiWriting) && net.sends != []
    ensures Balanced(answers, m, [net.sends[0]], [], WriteTurn(m, net))
    ensures WriteTurn(m, net).net == net.(sends := net.sends[1..])
  {
    hide AnswerCount, Count;
    CountOne(net.sends[0], AllSent);
    CountOne(net.sends[0], SendFault);
    CountOne(net.sends[0], WouldBlock);
    CountOne(NewConnection, NoConnection);
  }

  lemma TurnBalanced(answers: seq<Byte> -> bool, m: Machine, net: Net) returns (sent: seq<Send>, accepted: seq<Accept>)
    requires Sized(m) && Proper(net.input)
    ensures var o := Turn(answers, m, net);
            && Balanced(answers, m, sent, accepted, o)
            && Uses(net.sends, sent, o.net.sends) && Uses(net.accepts, accepted, o.net.accepts)
  {
    sent, accepted := [], [];
    if m.state == Reading {
      ReadTurnBalanced(answers, m, net);
    } else if m.state == Listening && net.accepts != [] {
      accepted := [net.accepts[0]];
      CountOne(net.accepts[0], NoConnection);
    } else if (m.state == Writing || m.state == MultiWriting) && net.sends != [] {
      sent := [net.sends[0]];
      WriteTurnBalanced(answers, m, net);
    }
    hide ReadTurn, WriteTurn, AnswerCount;
  }

  lemma BalancedMore(answers: seq<Byte> -> bool, m: Machine, o: Outcome, o': Outcome,
                     sent: seq<Send>, more: seq<Send>, accepted: seq<Accept>, others: seq<Accept>)
    requires Balanced(answers, m, sent, accepted, o) && o.result == Continues
    requires Balanced(answers, o.m, more, others, o') && (o.m.state == Closing ==> o'.m.state == Closing)
    ensures Balanced(answers, m, sent + more, accepted + others, o')
  {
    hide AnswerCount, Count;
    CountAppend(sent, more, AllSent);
    CountAppend(sent, more, SendFault);
    CountAppend(sent, more, WouldBlock);
    CountAppend(accepted, others, NoConnection);
  }

  /** Over a whole run no answer is forgotten and none is made up. */
  lemma {:induction false} RunBalanced(answers: seq<Byte> -> bool, m: Machine, net: Net)
    returns (sent: seq<Send>, accepted: seq<Accept>)
    requires Sized(m) && Proper(net.input)
    ensures var o := Run(answers, m, net);
            && Balanced(answers, m, sent, accepted, o)
            && Uses(net.sends, sent, o.net.sends) && Uses(net.accepts, accepted, o.net.accepts)
    decreases Rank(net), |m.pending|
  {
    TurnProgress(answers, m, net);
    var o := Turn(answers, m, net);
    sent, accepted := TurnBalanced(answers, m, net);
    hide Turn, Balanced;
    if o.result == Continues {
      var more, others := RunBalanced(answers, o.m, o.net);
      var o' := Run(answers, o.m, o.net);
      if o.m.state == Closing { ClosedReturns(answers, o.m, o.net); }
      BalancedMore(answers, m, o, o', sent, more, accepted, others);
      Assoc(sent, more, o'.net.sends);
      Assoc(accepted, others, o'.net.accepts);
      sent, accepted := sent + more, accepted + others;
    }
  }

  /** Nothing in a script of reads ends the stream. */
  predicate Open(script: seq<Read>) {
    forall i :: 0 <= i < |script| ==> script[i].Data? || script[i].Again?
  }

  lemma {:induction false} FillOpen(size: nat, used: nat, script: seq<Read>)
    requires size > 0 && used <= size && Proper(script) && Open(script)
    ensures var f := Fill(size, used, script); !f.closed && Open(f.rest)
    decreases Work(script)
  {
    if script != [] {
      ProperTail(script);
      assert Open(script[1..]) && (script[0].Data? || script[0].Again?);
      if script[0].Data? {
        hide Fill, Work, Proper;
        var room := Room(size, used);
        if |script[0].bytes| < room - used {
          FillShort(size, used, script);
        } else {
          var rest := AfterRead(script, room - used);
          AfterReadWork(script, room - used);
          FillMore(size, used, script, rest);
          FillOpen(room, room, rest);
        }
      }
    }
  }

  ghost predicate StaysOpen(m: Machine, net: Net) {
    && m.state != Closing && (m.state == Writing ==> m.go == Reading)
    && Open(net.input) && SendFault !in net.sends
  }

  lemma TurnStaysOpen(answers: seq<Byte> -> bool, m: Machine, net: Net)
    requires Sized(m) && Proper(net.input) && StaysOpen(m, net)
    ensures StaysOpen(Turn(answers, m, net).m, Turn(answers, m, net).net)
  {
    FillOpen(m.size, |m.pending|, net.input);
    assert net.sends != [] ==> net.sends[0] in net.sends;
    assert net.sends != [] ==> forall x :: x in net.sends[1..] ==> x in net.sends;
    hide Fill, IndexOf, Command, Open, Proper;
  }

  /** A connection is closed only by the end of its input, an error, or a last answer. */
  lemma {:induction false} RunStaysOpen(answers: seq<Byte> -> bool, m: Machine, net: Net)
    requires Sized(m) && Proper(net.input) && StaysOpen(m, net)
    ensures Run(answers, m, net).m.state != Closing
    decreases Rank(net), |m.pending|
  {
    TurnProgress(answers, m, net);
    TurnStaysOpen(answers, m, net);
    var o := Turn(answers, m, net);
    hide Turn;
    if o.result == Continues { RunStaysOpen(answers, o.m, o.net); }
  }

  /** After a last answer nothing more is read or dispatched, and the connection is closed once the answer is sent. */
  lemma {:induction false} LastAnswer(answers: seq<Byte> -> bool, m: Machine, net: Net)
    requires Sized(m) && Proper(net.input) && m.state == Writing && m.go == Closing
    ensures var o := Run(answers, m, net);
            && o.m.received == m.received && o.m.dispatched == m.dispatched && o.net.input == net.input
            && (o.m.state == Writing || o.result == Returned0)
    decreases Rank(net), |m.pending|
  {
    hide Proper, ReadTurn;
    TurnProgress(answers, m, net);
    var o := Turn(answers, m, net);
    if o.result == Continues {
      if o.m.state == Closing { ClosedReturns(answers, o.m, o.net); } else { LastAnswer(answers, o.m, o.net); }
    }
  }

  /** With no line pending and nothing to read it waits at once. */
  lemma WaitsAtOnce(answers: seq<Byte> -> bool, m: Machine, net: Net)
    requires Sized(m) && Proper(net.input) && m.state == Reading && NEWLINE !in m.pending
    requires net.input != [] && net.input[0].Again?
    ensures Run(answers, m, net) ==
            Outcome(m.(flags := AE_READABLE, size := Room(m.size, |m.pending|)), net.(input := net.input[1..]),
                    Returned1)
  {
    IndexOfIs(m.pending, NEWLINE);
    assert m.pending + [] == m.pending && m.received + [] == m.received;
    hide IndexOf;
  }

  /** A big buffer with little in it is given back when the connection goes back to reading. */
  lemma ShrinksAfterAnswer(answers: seq<Byte> -> bool, m: Machine, net: Net)
    requires Sized(m) && Proper(net.input) && NEWLINE !in m.pending && net.input != [] && net.input[0].Again?
    requires m.state == MultiWriting || (m.state == Writing && m.go == Reading)
    requires net.sends != [] && net.sends[0].AllSent?
    requires |m.pending| < m.size && |m.pending| < 2048
    ensures var o := Run(answers, m, net);
            && o.result == Returned1 && o.m.state == Reading && o.m.pending == m.pending
            && o.m.size == if m.size > 8192 then 2048 else m.size
  {
    var m', net' := WithState(m, Reading), net.(sends := net.sends[1..]);
    assert Turn(answers, m, net) == Outcome(m', net', Continues);
    RunStep(answers, m, net, m', net');
    WaitsAtOnce(answers, m', net');
    hide Run, Turn;
  }

  // ----------------------------------------------------------------- lines that are never dispatched

  lemma LineLeft(m: Machine)
    requires MachineOk(m)
    ensures m.dispatched == Commands(m.received) <==> NEWLINE !in m.pending
  {
    FramedMeans(m.received, m.pending, m.dispatched);
    CommandCount(m.pending);
    hide Commands, Framed;
    assert m.dispatched + [] == m.dispatched;
  }

  /** Whether this turn closes the connection with a complete line in the buffer: a call of try_read_network that reads
      a newline and goes on to the end of the stream or an error, or a failed (or last) transmit before the commands
      that wait behind the answered one. */
  predicate Abandons(m: Machine, net: Net)
    requires Sized(m) && Proper(net.input)
  {
    match m.state
    case Listening => false
    case Reading =>
      var f := Fill(m.size, |m.pending|, net.input);
      NEWLINE !in m.pending && f.closed && NEWLINE in f.bytes
    case Closing => NEWLINE in m.pending
    case _ =>
      && net.sends != [] && NEWLINE in m.pending
      && (net.sends[0].SendFault? || (net.sends[0].AllSent? && m.state == Writing && m.go == Closing))
  }

  lemma ReadTurnAbandons(answers: seq<Byte> -> bool, m: Machine, net: Net)
    requires MachineOk(m) && Proper(net.input) && m.state == Reading
    ensures var o := ReadTurn(answers, m, net); Abandons(m, net) <==> o.m.state == Closing && NEWLINE in o.m.pending
  {
    IndexOfIs(m.pending, NEWLINE);
    hide Fill, IndexOf, Command, Framed;
  }

  lemma TurnAbandons(answers: seq<Byte> -> bool, m: Machine, net: Net)
    requires MachineOk(m) && Proper(net.input)
    ensures var o := Turn(answers, m, net); Abandons(m, net) <==> o.m.state == Closing && NEWLINE in o.m.pending
  {
    if m.state == Reading {
      ReadTurnAbandons(answers, m, net);
    }
    hide ReadTurn, Fill, Framed;
  }

  /** Whether some turn of the run, the first that closes the connection, leaves a complete line behind. */
  predicate Loses(answers: seq<Byte> -> bool, m: Machine, net: Net)
    requires Sized(m) && Proper(net.input)
    decreases Rank(net), |m.pending|
  {
    TurnProgress(answers, m, net);
    var o := Turn(answers, m, net);
    Abandons(m, net) || (o.result == Continues && o.m.state != Closing && Loses(answers, o.m, o.net))
  }

  lemma ClosedReturns(answers: seq<Byte> -> bool, m: Machine, net: Net)
    requires Sized(m) && Proper(net.input) && m.state == Closing
    ensures Run(answers, m, net) == Outcome(m.(flags := 0), net, Returned0)
  {
  }

  lemma TurnCloses(answers: seq<Byte> -> bool, m: Machine, net: Net)
    requires Sized(m) && Proper(net.input)
    ensures var o := Turn(answers, m, net);
            && (m.state == Closing <==> o.result == Returned0)
            && (m.state == Closing ==> o.m.pending == m.pending)
            && (m.state != Closing && o.m.state == Closing ==> o.result == Continues)
  {
    FillConserves(m.size, |m.pending|, net.input);
    hide Bytes, Work, Proper, Fill, Command, IndexOf;
  }

  /** A connection that drive_machine closes has received complete lines that it never dispatches if and only if ... */
  lemma {:induction false} LosesIff(answers: seq<Byte> -> bool, m: Machine, net: Net)
    requires MachineOk(m) && Proper(net.input)
    ensures var o := Run(answers, m, net);
            o.result == Returned0 && o.m.dispatched != Commands(o.m.received) <==> Loses(answers, m, net)
    decreases Rank(net), |m.pending|
  {
    RunKeeps(answers, m, net);
    LineLeft(Run(answers, m, net).m);
    TurnProgress(answers, m, net);
    TurnKeeps(answers, m, net);
    TurnAbandons(answers, m, net);
    TurnCloses(answers, m, net);
    var o := Turn(answers, m, net);
    if o.result == Continues {
      if o.m.state == Closing { ClosedReturns(answers, o.m, o.net); } else { LosesIff(answers, o.m, o.net); }
    }
    hide Turn, Commands, Abandons;
  }

  /** n is size, doubled some number of times. */
  predicate Doubled(size: nat, n: nat)
    requires size > 0
    decreases n - size
  {
    n == size || (n > size && Doubled(2 * size, n))
  }

  /** With the chunks of the script at hand: a call that meets the end of the stream or an error has before that read
      chunks each of which fills the buffer, as it then is, to its last byte. */
  ghost predicate EndsFull(size: nat, used: nat, script: seq<Read>)
    requires size > 0 && used <= size && Proper(script)
  {
    && script != []
    && match script[0]
       case Eof => true
       case Fault => true
       case Again => false
       case Data(bytes) =>
         var full := used + |bytes|;
         Doubled(Room(size, used), full) && Fill(full, full, script[1..]).closed
  }

  lemma DoubledMore(size: nat, n: nat)
    requires size > 0
    ensures n > size ==> (Doubled(size, n) <==> Doubled(2 * size, n))
    ensures n == size ==> Doubled(size, n)
    ensures n < size ==> !Doubled(size, n)
  {
  }

  lemma DoubledRoom(room: nat)
    ensures Room(room, room) == 2 * room
  {
  }

  ghost predicate EndsRight(size: nat, used: nat, script: seq<Read>)
    requires size > 0 && used <= size && Proper(script)
  {
    && (Fill(size, used, script).closed <==> EndsFull(size, used, script))
    && (EndsFull(size, used, script) && script[0].Data? ==>
          var full := used + |script[0].bytes|;
          && full > 0 && Proper(script[1..])
          && Fill(size, used, script).bytes == script[0].bytes + Fill(full, full, script[1..]).bytes)
  }

  lemma EndsRightIs(size: nat, used: nat, script: seq<Read>, bytes: seq<Byte>, tail: seq<Read>, full: nat)
    requires size > 0 && used <= size && Proper(script) && script != [] && script[0] == Data(bytes)
    requires tail == script[1..] && Proper(tail) && full == used + |bytes| > 0
    ensures var f, t := Fill(size, used, script), Fill(full, full, tail);
            EndsRight(size, used, script) <==>
              && (f.closed <==> Doubled(Room(size, used), full) && t.closed)
              && (f.closed ==> f.bytes == bytes + t.bytes)
  {
    hide Fill, Doubled;
  }

  lemma EndsRightMore(size: nat, used: nat, script: seq<Read>, n: nat, rest: seq<Read>)
    requires size > 0 && used <= size && Proper(script) && script != [] && script[0].Data? && Proper(rest)
    requires n == Room(size, used) - used < |script[0].bytes| && Proper(script[1..])
    requires rest == AfterRead(script, n) && EndsRight(Room(size, used), Room(size, used), rest)
    ensures EndsRight(size, used, script)
  {
    var room, bytes, tail := Room(size, used), script[0].bytes, script[1..];
    var full := used + |bytes|;
    assert rest[0] == Data(bytes[n..]) && rest[1..] == tail;
    assert room + |bytes[n..]| == full;
    hide *;
    EndsRightIs(room, room, rest, bytes[n..], tail, full);
    EndsRightIs(size, used, script, bytes, tail, full);
    DoubledMore(room, full);
    DoubledRoom(room);
    FillMore(size, used, script, rest);
    Assoc(bytes[..n], bytes[n..], Fill(full, full, tail).bytes);
    assert bytes == bytes[..n] + bytes[n..];
  }

  lemma EndsRightExact(size: nat, used: nat, script: seq<Read>)
    requires size > 0 && used <= size && Proper(script) && script != [] && script[0].Data? && script[0].bytes != []
    requires |script[0].bytes| <= Room(size, used) - used && Proper(script[1..])
    ensures EndsRight(size, used, script)
  {
    var room, bytes := Room(size, used), script[0].bytes;
    assert AfterRead(script, |bytes|) == script[1..] && bytes[..|bytes|] == bytes;
    hide *;
    EndsRightIs(size, used, script, bytes, script[1..], used + |bytes|);
    DoubledMore(room, used + |bytes|);
    if |bytes| < room - used {
      FillShort(size, used, script);
    } else {
      FillMore(size, used, script, script[1..]);
    }
  }

  /** ... and the bytes it has read are those of these chunks. */
  lemma {:induction false} ClosedIff(size: nat, used: nat, script: seq<Read>)
    requires size > 0 && used <= size && Proper(script)
    ensures EndsRight(size, used, script)
    decreases Work(script)
  {
    if script != [] && script[0].Data? {
      var n := Room(size, used) - used;
      hide Fill, EndsFull, EndsRight, Work, Proper;
      ProperTail(script);
      if |script[0].bytes| > n {
        var rest := AfterRead(script, n);
        AfterReadWork(script, n);
        ClosedIff(Room(size, used), Room(size, used), rest);
        EndsRightMore(size, used, script, n, rest);
      } else {
        EndsRightExact(size, used, script);
      }
    }
  }

  lemma RunStep(answers: seq<Byte> -> bool, m: Machine, net: Net, m': Machine, net': Net)
    requires Sized(m) && Proper(net.input) && Sized(m') && Proper(net'.input)
    requires Turn(answers, m, net) == Outcome(m', net', Continues)
    ensures Run(answers, m, net) == Run(answers, m', net')
    ensures m'.state != Closing && Loses(answers, m', net') ==> Loses(answers, m, net)
  {
    hide Turn;
  }

  /** A turn that closes the connection is the last but one. */
  lemma ClosingTurn(answers: seq<Byte> -> bool, m: Machine, net: Net, m': Machine, net': Net)
    requires Sized(m) && Proper(net.input) && Sized(m') && Proper(net'.input)
    requires Turn(answers, m, net) == Outcome(m', net', Continues) && m'.state == Closing && Abandons(m, net)
    ensures Run(answers, m, net) == Outcome(m'.(flags := 0), net', Returned0) && Loses(answers, m, net)
  {
    hide Turn, Abandons;
    RunStep(answers, m, net, m', net');
    ClosedReturns(answers, m', net');
  }

  /** conn_new */
  function Fresh(size: nat, init: ConnState): Machine {
    Machine(size, [], init, Reading, AE_READABLE, [], [])
  }

  lemma FreshOk(size: nat, init: ConnState)
    requires size > 0
    ensures MachineOk(Fresh(size, init))
  {
    FramedStart();
  }

  lemma FillOfTwo(message: seq<Byte>)
    requires message != []
    ensures Fill(|message|, 0, [Data(message), Eof]) == Filled(message, true, [], false, 2 * |message|)
  {
    var script := [Data(message), Eof];
    assert script[1..] == [Eof] && script[1..][1..] == [];
    assert message[..|message|] == message && message + [] == message;
    assert Fill(|message|, |message|, [Eof]) == Filled([], true, [], false, 2 * |message|);
  }

  lemma ReadsAll(answers: seq<Byte> -> bool, message: seq<Byte>, net: Net)
    requires NEWLINE in message && net.input == [Data(message), Eof]
    ensures var m := Fresh(|message|, Reading);
            && Abandons(m, net)
            && Turn(answers, m, net) ==
               Outcome(Machine(2 * |message|, message, Closing, Reading, AE_READABLE, message, []),
                       net.(input := []), Continues)
  {
    FillOfTwo(message);
    assert [] + message == message;
    hide Fill;
  }

  /** One such input: a message that fills the buffer to the last byte, then the end of the stream.  The message is
      received, and none of its lines is dispatched. */
  lemma FullBufferThenEnd(answers: seq<Byte> -> bool, message: seq<Byte>, sends: seq<Send>, accepts: seq<Accept>)
    requires NEWLINE in message
    ensures var m, net := Fresh(|message|, Reading), Net([Data(message), Eof], sends, accepts);
            && MachineOk(m) && Proper(net.input) && Loses(answers, m, net)
            && Run(answers, m, net) ==
               Outcome(Machine(2 * |message|, message, Closing, Reading, 0, message, []), net.(input := []), Returned0)
            && Commands(message) != []
  {
    var net := Net([Data(message), Eof], sends, accepts);
    var closed := Machine(2 * |message|, message, Closing, Reading, AE_READABLE, message, []);
    assert Proper(net.input) && Proper([]) && Sized(closed);
    hide *;
    FreshOk(|message|, Reading);
    CommandCount(message);
    ReadsAll(answers, message, net);
    ClosingTurn(answers, Fresh(|message|, Reading), net, closed, net.(input := []));
  }

  lemma TwoLines()
    ensures var lines := [97, NEWLINE, 98, NEWLINE];
            && IndexOf(lines, NEWLINE) == 1 && lines[2..] == [98, NEWLINE] && Command(lines, 1) == [97]
            && Commands(lines) == [[97], [98]]
  {
    var lines := [97, NEWLINE, 98, NEWLINE];
    assert lines[1..] == [NEWLINE, 98, NEWLINE] && lines[..1] == [97] && [97][1..] == [];
    var second := lines[2..];
    assert second == [98, NEWLINE] && second[1..] == [NEWLINE] && second[..1] == [98] && [98][1..] == [];
    assert IndexOf(second, NEWLINE) == 1;
    assert IndexOf([97], NUL) == 1 && IndexOf([98], NUL) == 1;
    assert Command(second, 1) == [98] && second[2..] == [];
    assert Commands(second) == [[98]] + Commands([]);
  }

  lemma TakesFirst(answers: seq<Byte> -> bool, m: Machine, net: Net)
    requires Sized(m) && Proper(net.input) && m.state == m.go == Reading && answers([97])
    requires m.pending == [97, NEWLINE, 98, NEWLINE] && m.dispatched == []
    ensures Turn(answers, m, net) ==
            Outcome(m.(pending := [98, NEWLINE], dispatched := [[97]], state := Writing), net, Continues)
  {
    TwoLines();
    hide Fill, Commands, IndexOf, Command;
  }

  lemma CannotSend(answers: seq<Byte> -> bool, m: Machine, net: Net)
    requires Sized(m) && Proper(net.input) && m.state == Writing && NEWLINE in m.pending
    requires net.sends != [] && net.sends[0].SendFault?
    ensures Abandons(m, net)
    ensures Turn(answers, m, net) == Outcome(m.(state := Closing), net.(sends := net.sends[1..]), Continues)
  {
    hide Fill, ReadTurn;
  }

  lemma UnreadOk(size: nat, pending: seq<Byte>)
    requires size >= |pending| && size > 0
    ensures MachineOk(Machine(size, pending, Reading, Reading, AE_READABLE, pending, []))
  {
    FramedStart();
    FramedMore([], [], [], pending);
    assert [] + pending == pending;
    hide Framed;
  }

  /** Another one: the answer to the first of two commands cannot be sent; the second is never dispatched. */
  lemma SendErrorLoses(answers: seq<Byte> -> bool, size: nat)
    requires size >= 4 && answers([97])
    ensures var lines := [97, NEWLINE, 98, NEWLINE];
            var m, net := Machine(size, lines, Reading, Reading, AE_READABLE, lines, []), Net([], [SendFault], []);
            && MachineOk(m) && Loses(answers, m, net)
            && Run(answers, m, net).result == Returned0 && Run(answers, m, net).m.dispatched == [[97]]
            && Commands(lines) == [[97], [98]]
  {
    var lines := [97, NEWLINE, 98, NEWLINE];
    var m, net := Machine(size, lines, Reading, Reading, AE_READABLE, lines, []), Net([], [SendFault], []);
    var written := m.(pending := [98, NEWLINE], dispatched := [[97]], state := Writing);
    var closed, net' := written.(state := Closing), Net([], net.sends[1..], []);
    assert Sized(m) && Sized(written) && Sized(closed) && Proper([]);
    hide *;
    TwoLines();
    UnreadOk(size, lines);
    TakesFirst(answers, m, net);
    RunStep(answers, m, net, written, net);
    assert written.pending[1] == NEWLINE;
    CannotSend(answers, written, net);
    ClosingTurn(answers, written, net, closed, net');
  }

  // ----------------------------------------------------------------- the connection

  function Pending(rbuf: seq<Byte>, rcurr: nat, rbytes: nat): (r: seq<Byte>)
    requires rcurr + rbytes <= |rbuf|
    ensures |r| == rbytes
  {
    rbuf[rcurr..rcurr + rbytes]
  }

  /** The first line of the pending bytes: where it ends, the command in it, and the buffer with a NUL after that. */
  method CutLine(rbuf: seq<Byte>, rcurr: nat, rbytes: nat) returns (n: nat, command: seq<Byte>, rbuf': seq<Byte>)
    requires rcurr + rbytes <= |rbuf|
    ensures var pending := Pending(rbuf, rcurr, rbytes);
            && n == IndexOf(pending, NEWLINE) && |rbuf'| == |rbuf|
            && (n < rbytes ==>
                  command == Command(pending, n) && Pending(rbuf', rcurr + n + 1, rbytes - n - 1) == pending[n + 1..])
  {
    var pending := rbuf[rcurr..rcurr + rbytes];
    command, rbuf' := [], rbuf;
    n := IndexOf(pending, NEWLINE);
    if n < rbytes {
      var el := LineEnd(pending, n);
      rbuf' := rbuf[rcurr + el := NUL];
      command := pending[..el][..IndexOf(pending[..el], NUL)];
    }
  }

  class Conn {
    const answers: seq<Byte> -> bool   // which commands process_command replies to
    var rbuf: seq<Byte>
    var rcurr: nat
    var rbytes: nat
    var state: ConnState
    var writeAndGo: ConnState
    var evFlags: int
    ghost var received: seq<Byte>
    ghost var dispatched: seq<seq<Byte>>

    ghost predicate Valid()
      reads this
    {
      rcurr + rbytes <= |rbuf| && |rbuf| > 0 && (writeAndGo == Reading || writeAndGo == Closing)
    }

    ghost function View(): (m: Machine)
      requires Valid()
      reads this
      ensures Sized(m)
    {
      Machine(|rbuf|, Pending(rbuf, rcurr, rbytes), state, writeAndGo, evFlags, received, dispatched)
    }

    /** conn_new */
    constructor (which: seq<Byte> -> bool, init: ConnState, size: nat)
      requires size > 0 && (init == Listening || init == Reading)
      ensures Valid() && answers == which && MachineOk(View())
      ensures View() == Fresh(size, init)
    {
      answers := which;
      rbuf := seq(size, _ => 0);
      rcurr, rbytes, state, writeAndGo, evFlags := 0, 0, init, Reading, AE_READABLE;
      received, dispatched := [], [];
      new;
      FreshOk(size, init);
      assert Pending(rbuf, rcurr, rbytes) == [];
    }

    /** conn_shrink, as far as the input buffer goes. */
    method Shrink()
      requires Valid()
      modifies this`rbuf, this`rcurr
      ensures Valid()
      ensures var shrinks := old(|rbuf|) > READ_BUFFER_HIGHWAT && rbytes < DATA_BUFFER_SIZE;
              View() == old(View()).(size := if shrinks then DATA_BUFFER_SIZE else old(|rbuf|))
    {
      if |rbuf| > READ_BUFFER_HIGHWAT && rbytes < DATA_BUFFER_SIZE {
        ghost var pending := Pending(rbuf, rcurr, rbytes);
        if rcurr != 0 {
          rbuf := rbuf[rcurr..rcurr + rbytes] + rbuf[rbytes..];
        }
        rbuf := rbuf[..DATA_BUFFER_SIZE];
        rcurr := 0;
        assert Pending(rbuf, rcurr, rbytes) == pending;
      }
    }

    /** conn_set_state */
    method SetState(s: ConnState)
      requires Valid()
      modifies this`state, this`rbuf, this`rcurr
      ensures Valid() && View() == WithState(old(View()), s)
    {
      if s != state {
        if s == Reading {
          Shrink();
        }
        state := s;
      }
    }

    /** try_read_command */
    method TryReadCommand() returns (found: bool)
      requires Valid() && state == Reading
      modifies this
      ensures Valid() && (found <==> IndexOf(old(View()).pending, NEWLINE) < |old(View()).pending|)
      ensures View() == if found then Dispatched(answers, old(View())) else old(View())
    {
      hide IndexOf, Command, Pending;
      if rbytes == 0 {
        IndexOfIs(View().pending, NEWLINE);
        return false;
      }
      var n, command, rbuf' := CutLine(rbuf, rcurr, rbytes);
      if n == rbytes {
        return false;
      }
      rbuf := rbuf';
      ProcessCommand(command);
      rbytes := rbytes - (n + 1);
      rcurr := rcurr + n + 1;
      return true;
    }

    /** process_command: a command that is answered puts the connection into its writing state. */
    method ProcessCommand(command: seq<Byte>)
      requires state == Reading
      modifies this`state, this`writeAndGo, this`dispatched
      ensures dispatched == old(dispatched) + [command]
      ensures state == if answers(command) then Writing else Reading
      ensures writeAndGo == if answers(command) then Reading else old(writeAndGo)
    {
      dispatched := dispatched + [command];
      if answers(command) {
        state := Writing;
        writeAndGo := Reading;
      }
    }

    /** The memmove at the start of try_read_network. */
    method MoveToFront()
      requires Valid()
      modifies this`rbuf, this`rcurr
      ensures Valid() && rcurr == 0 && View() == old(View())
    {
      if rcurr != 0 {
        ghost var pending := Pending(rbuf, rcurr, rbytes);
        if rbytes != 0 {
          rbuf := rbuf[rcurr..rcurr + rbytes] + rbuf[rbytes..];
        }
        rcurr := 0;
        assert Pending(rbuf, rcurr, rbytes) == pending;
      }
    }

    /** The buffer is doubled if it is full. */
    method MakeRoom()
      requires Valid() && rcurr == 0
      modifies this`rbuf
      ensures Valid() && rbytes < |rbuf| && View() == old(View()).(size := Room(old(|rbuf|), rbytes))
    {
      if rbytes >= |rbuf| {
        ghost var pending := Pending(rbuf, rcurr, rbytes);
        rbuf := rbuf + seq(|rbuf|, _ => 0);
        assert Pending(rbuf, rcurr, rbytes) == pending;
      }
    }

    /** One read into the free part of the buffer. */
    method ReadInto(bytes: seq<Byte>) returns (res: nat, avail: nat)
      requires Valid() && rcurr == 0 && rbytes < |rbuf|
      modifies this`rbuf, this`rbytes, this`received
      ensures Valid() && avail == |rbuf| - old(rbytes) && res == (if |bytes| < avail then |bytes| else avail)
      ensures View() == Took(old(View()), bytes[..res])
    {
      avail := |rbuf| - rbytes;
      res := if |bytes| < avail then |bytes| else avail;
      ghost var pending := Pending(rbuf, rcurr, rbytes);
      rbuf := rbuf[..rbytes] + bytes[..res] + rbuf[rbytes + res..];
      rbytes := rbytes + res;
      received := received + bytes[..res];
      assert Pending(rbuf, rcurr, rbytes) == pending + bytes[..res];
    }

    /** The data of one read; `more` tells whether the buffer is full, so that the loop goes on. */
    method ReadData(script: seq<Read>, ghost have: seq<Byte>, ghost whole: Filled)
      returns (rest: seq<Read>, more: bool, ghost bytes: seq<Byte>)
      requires Valid() && rcurr == 0 && rbytes < |rbuf| && Proper(script) && script != [] && script[0].Data?
      requires Joined(have, Fill(|rbuf|, rbytes, script), whole)
      modifies this`rbuf, this`rbytes, this`received
      ensures Valid() && |rbuf| == old(|rbuf|) && Proper(rest) && Work(rest) < Work(script)
      ensures bytes != [] && View() == Took(old(View()), bytes)
      ensures var next := if more then Fill(|rbuf|, rbytes, rest) else Filled([], false, rest, false, |rbuf|);
              Joined(have + bytes, next, whole)
    {
      hide Fill, Work, Joined, Proper, Pending, AfterRead;
      ProperTail(script);
      ghost var used := rbytes;
      var data := script[0].bytes;
      var res, avail := ReadInto(data);
      bytes := data[..res];
      AfterReadWork(script, res);
      ghost var next := if res < avail then Filled([], false, script[1..], false, |rbuf|)
                        else Fill(|rbuf|, |rbuf|, AfterRead(script, res));
      FillData(|rbuf|, used, script, res, next);
      JoinedMore(have, bytes, next, whole);
      rest := AfterRead(script, res);
      more := res == avail;
    }

    /** The loop of try_read_network: it reads until a read does not fill the buffer. */
    method ReadLoop(script: seq<Read>) returns (got: bool, rest: seq<Read>, closed: bool, dry: bool)
      requires Valid() && rcurr == 0 && Proper(script)
      modifies this`rbuf, this`rbytes, this`received
      ensures Valid()
      ensures var f := Fill(old(|rbuf|), old(rbytes), script);
              && View() == Took(old(View()), f.bytes).(size := f.size)
              && (got <==> f.bytes != []) && rest == f.rest && closed == f.closed && dry == f.dry
    {
      got, rest, closed, dry := false, script, false, false;
      ghost var m, have, whole := View(), [], Fill(|rbuf|, rbytes, script);
      assert Joined(have, whole, whole);
      TookNothing(m);
      hide *;
      while true
        invariant Valid() && Proper(rest) && rcurr == 0 && 0 < |rbuf| && rbytes <= |rbuf| && !closed && !dry
        invariant View() == Took(m, have).(size := |rbuf|) && (got <==> have != [])
        invariant Joined(have, Fill(|rbuf|, rbytes, rest), whole)
        modifies this`rbuf, this`rbytes, this`received
        decreases Work(rest)
      {
        FillRoom(|rbuf|, rbytes, rest);
        MakeRoom();
        if rest == [] {
          FillEnds(have, |rbuf|, rbytes, rest, whole);
          dry := true;
          return;
        }
        if !rest[0].Data? {
          FillEnds(have, |rbuf|, rbytes, rest, whole);
          closed := !rest[0].Again?;
          rest := rest[1..];
          return;
        }
        var more;
        ghost var bytes;
        rest, more, bytes := ReadData(rest, have, whole);
        TookMore(m, have, bytes, |rbuf|);
        got, have := true, have + bytes;
        if !more {
          JoinedEnd(have, Filled([], false, rest, false, |rbuf|), whole);
          return;
        }
      }
    }

    /** try_read_network; `rest` is what is left of the script. */
    method TryReadNetwork(script: seq<Read>) returns (got: bool, rest: seq<Read>, unfinished: bool)
      requires Valid() && state == Reading && Proper(script)
      modifies this
      ensures Valid()
      ensures var f := Fill(old(View()).size, |old(View()).pending|, script);
              && View() == Networked(old(View()), f)
              && (got <==> f.closed || f.bytes != []) && rest == f.rest && unfinished == f.dry
    {
      hide Fill, Proper, Pending;
      MoveToFront();
      var closed;
      got, rest, closed, unfinished := ReadLoop(script);
      if closed {
        got := true;
        SetState(Closing);
      }
    }

    /** The conn_read state: a command if there is one, else a read. */
    method ReadState(net: Net) returns (rest: Net, result: Result)
      requires Valid() && state == Reading && Proper(net.input)
      modifies this
      ensures Valid() && Outcome(View(), rest, result) == ReadTurn(answers, old(View()), net)
    {
      hide Fill, Proper, IndexOf, Command, Pending;
      rest, result := net, Continues;
      var found := TryReadCommand();
      if found {
        return;
      }
      var got, script, unfinished := TryReadNetwork(net.input);
      rest := net.(input := script);
      if unfinished {
        result := Unfinished;
      } else if !got {
        evFlags := AE_READABLE;
        result := Returned1;
      }
    }

    /** The conn_write and conn_mwrite states: one call of transmit. */
    method WriteState(net: Net) returns (rest: Net, result: Result)
      requires Valid() && (state == Writing || state == MultiWriting)
      modifies this
      ensures Valid() && Outcome(View(), rest, result) == WriteTurn(old(View()), net)
    {
      hide Pending;
      rest, result := net, Continues;
      if net.sends == [] {
        result := Unfinished;
        return;
      }
      rest := net.(sends := net.sends[1..]);
      match net.sends[0]
      case AllSent =>
        SetState(if state == MultiWriting then Reading else writeAndGo);
      case SomeSent =>
      case SendFault =>
        SetState(Closing);
      case WouldBlock =>
        evFlags := AE_WRITABLE;
        result := Returned1;
    }

    /** drive_machine, until it returns or a script runs out. */
    method Drive(net: Net) returns (result: Result, rest: Net, ghost sent: seq<Send>, ghost accepted: seq<Accept>)
      requires Valid() && Proper(net.input)
      modifies this
      ensures Valid() && Outcome(View(), rest, result) == Run(answers, old(View()), net)
      ensures MachineOk(old(View())) ==> Promised(old(View()), net, Outcome(View(), rest, result))
      ensures MachineOk(old(View())) ==>
                (result == Returned0 && dispatched != Commands(received) <==> Loses(answers, old(View()), net))
      ensures Uses(net.sends, sent, rest.sends) && Uses(net.accepts, accepted, rest.accepts)
      ensures Balanced(answers, old(View()), sent, accepted, Outcome(View(), rest, result))
    {
      sent, accepted := RunBalanced(answers, View(), net);
      if MachineOk(View()) {
        RunKeeps(answers, View(), net);
        LosesIff(answers, View(), net);
      }
      hide Work, Proper, Pending, ReadTurn, WriteTurn, Promised, MachineOk, Commands, Loses, Balanced, Uses;
      result, rest := Continues, net;
      while result == Continues
        invariant Valid() && Proper(rest.input)
        invariant RunFrom(answers, View(), rest, result) == Run(answers, old(View()), net)
        decreases result == Continues, Rank(rest), rbytes
      {
        ghost var m, before := View(), rest;
        TurnProgress(answers, m, rest);
        match state
        case Listening =>
          if rest.accepts == [] {
            result := Unfinished;
          } else {
            result := if rest.accepts[0].NoConnection? then Returned1 else Continues;
            rest := rest.(accepts := rest.accepts[1..]);
          }
        case Reading =>
          rest, result := ReadState(rest);
        case Closing =>
          evFlags := 0;
          result := Returned0;
        case _ =>
          rest, result := WriteState(rest);
        assert Outcome(View(), rest, result) == Turn(answers, m, before);
      }
    }
  }
}
