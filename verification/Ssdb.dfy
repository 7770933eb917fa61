/** The framing of the SSDB client, ClientWeb/include/ssdb.class.php: send, parse and recv.
    A PHP string is a string of bytes; each is written as a char. */
module Ssdb {
  import opened Sequences

  // ----------------------------------------------------------------- PHP's string functions

  /** The index of the first newline, or the length if there is none. */
  function Newline(s: string): (n: nat)
    ensures n <= |s| && (forall i :: 0 <= i < n ==> s[i] != '\n') && (n < |s| ==> s[n] == '\n')
  {
    if s == "" || s[0] == '\n' then 0 else 1 + Newline(s[1..])
  }

  predicate Blank(c: char) {
    c == ' ' || c == '\t' || c == '\n' || c == '\r' || c == '\0' || c == '\U{0B}'
  }

  /** trim */
  function Trim(s: string): string {
    if s == "" then ""
    else if Blank(s[0]) then Trim(s[1..])
    else if Blank(s[|s| - 1]) then Trim(s[..|s| - 1])
    else s
  }

  predicate Digit(c: char) {
    '0' <= c <= '9'
  }

  function LeadingDigits(s: string): (n: nat)
    ensures n <= |s| && (forall i :: 0 <= i < n ==> Digit(s[i])) && (n < |s| ==> !Digit(s[n]))
  {
    if s == "" || !Digit(s[0]) then 0 else 1 + LeadingDigits(s[1..])
  }

  function DigitOf(c: char): (d: nat)
    ensures Digit(c) ==> d < 10
  {
    if Digit(c) then c as nat - '0' as nat else 0
  }

  function Value(digits: string): nat {
    if digits == "" then 0 else Value(digits[..|digits| - 1]) * 10 + DigitOf(digits[|digits| - 1])
  }

  /** intval of a trimmed string: an optional sign and the digits that follow. */
  function IntVal(s: string): int {
    if s != "" && s[0] == '-' then 0 - Value(s[1..][..LeadingDigits(s[1..])])
    else if s != "" && s[0] == '+' then Value(s[1..][..LeadingDigits(s[1..])])
    else Value(s[..LeadingDigits(s)])
  }

  /** A number as PHP writes it. */
  function Decimal(n: nat): (s: string)
    ensures s != "" && forall i :: 0 <= i < |s| ==> Digit(s[i])
  {
    var digit := ['0' + (n % 10) as char];
    if n < 10 then digit else Decimal(n / 10) + digit
  }

  lemma {:induction false} ValueOfDecimal(n: nat)
    ensures Value(Decimal(n)) == n
  {
    var s := Decimal(n);
    if n >= 10 {
      ValueOfDecimal(n / 10);
      assert s[..|s| - 1] == Decimal(n / 10);
    } else {
      assert s[..|s| - 1] == "";
    }
  }

  lemma {:induction false} AllDigits(s: string)
    requires forall i :: 0 <= i < |s| ==> Digit(s[i])
    ensures LeadingDigits(s) == |s|
  {
    if s != "" { AllDigits(s[1..]); }
  }

  /** A length line reads back as the length. */
  lemma LengthLine(n: nat)
    ensures Trim(Decimal(n) + "\n") == Decimal(n) && IntVal(Decimal(n)) == n
  {
    var s := Decimal(n);
    assert (s + "\n")[..|s|] == s;
    AllDigits(s);
    assert s[..|s|] == s;
    ValueOfDecimal(n);
  }

  // ----------------------------------------------------------------- sending

  /** join("\n", ps) */
  function Join(ps: seq<string>): string {
    if |ps| == 0 then "" else if |ps| == 1 then ps[0] else ps[0] + "\n" + Join(ps[1..])
  }

  /** The frame of a message: each part with its length before it, and an empty line at the end. */
  function Frame(parts: seq<string>): string {
    if parts == [] then "\n" else Decimal(|parts[0]|) + "\n" + parts[0] + "\n" + Frame(parts[1..])
  }

  function Pieces(parts: seq<string>): seq<string> {
    if parts == [] then [] else [Decimal(|parts[0]|), parts[0]] + Pieces(parts[1..])
  }

  lemma {:induction false} PiecesSnoc(parts: seq<string>, p: string)
    ensures Pieces(parts + [p]) == Pieces(parts) + [Decimal(|p|), p]
  {
    if parts == [] {
      assert Pieces([p]) == [Decimal(|p|), p] + Pieces([p][1..]);
      assert [] + [p] == [p];
    } else {
      PiecesSnoc(parts[1..], p);
      assert (parts + [p])[1..] == parts[1..] + [p];
    }
  }

  lemma {:induction false} JoinPieces(parts: seq<string>)
    requires parts != []
    ensures Join(Pieces(parts)) + "\n\n" == Frame(parts)
  {
    var n, p, rest := Decimal(|parts[0]|), parts[0], parts[1..];
    var ps := Pieces(parts);
    assert ps[1..] == [p] + Pieces(rest) && ps[1..][1..] == Pieces(rest);
    assert Join(ps) == n + "\n" + Join(ps[1..]);
    if rest == [] {
      assert Join(ps[1..]) == p;
      assert Frame(rest) == "\n";
      assert n + "\n" + p + "\n\n" == n + "\n" + p + "\n" + "\n";
    } else {
      JoinPieces(rest);
      assert Join(ps[1..]) == p + "\n" + Join(Pieces(rest));
      assert n + "\n" + (p + "\n" + Join(Pieces(rest))) + "\n\n"
          == n + "\n" + p + "\n" + (Join(Pieces(rest)) + "\n\n");
    }
  }

  /** What send writes, for any message but the empty one, which would read as two messages. */
  method Send(parts: seq<string>) returns (s: string)
    ensures s == if parts == [] then Frame([]) + Frame([]) else Frame(parts)
  {
    var ps: seq<string> := [];
    for i := 0 to |parts|
      invariant ps == Pieces(parts[..i])
    {
      PiecesSnoc(parts[..i], parts[i]);
      assert parts[..i + 1] == parts[..i] + [parts[i]];
      ps := ps + [Decimal(|parts[i]|)];
      ps := ps + [parts[i]];
    }
    assert parts[..|parts|] == parts;
    s := Join(ps) + "\n\n";
    if parts != [] { JoinPieces(parts); }
  }

  // ----------------------------------------------------------------- parsing

  datatype Outcome =
    | Incomplete                                 // null
    | Done(parts: seq<string>, rest: string)     // a message, and what stays in recv_buf
    | Negative                                   // a negative length

  /** One turn of the parser's loop. */
  datatype Turn = Stop | Minus | End(rest: string) | Part(data: string, after: string)

  /** The bytes of a part, and the newline that must come after them. */
  function TakeData(num: nat, body: string): (t: Turn)
    ensures t.Part? ==> |t.after| < |body|
  {
    if num > |body| then Stop
    else
      var e := Newline(body[num..]);
      if num + e == |body| then Stop else Part(body[..num], body[num + e + 1..])
  }

  function TakeTurn(s: string): (t: Turn)
    ensures t.Part? ==> |t.after| < |s|
  {
    var e := Newline(s);
    if e == |s| then Stop
    else
      var line, body := Trim(s[..e + 1]), s[e + 1..];
      if line == "" then End(body)
      else if IntVal(line) < 0 then Minus
      else TakeData(IntVal(line), body)
  }

  function Prepend(data: string, o: Outcome): Outcome {
    match o
    case Done(parts, rest) => Done([data] + parts, rest)
    case other => other
  }

  /** What a buffer holds. */
  function Parse(s: string): Outcome
    decreases |s|
  {
    match TakeTurn(s)
    case Stop => Incomplete
    case Minus => Negative
    case End(rest) => Done([], rest)
    case Part(data, after) => Prepend(data, Parse(after))
  }

  lemma NewlineAt(s: string, t: string)
    requires '\n' !in s
    ensures Newline(s + "\n" + t) == |s| && Newline(s) == |s|
  {
    var u := s + "\n" + t;
    assert u[|s|] == '\n';
    assert forall i :: 0 <= i < |s| ==> u[i] == s[i] && s[i] in s;
  }

  lemma TurnAfterLength(n: nat, t: string)
    ensures TakeTurn(Decimal(n) + "\n" + t) == TakeData(n, t)
  {
    var line := Decimal(n);
    NewlineAt(line, t);
    LengthLine(n);
    Cut(line + "\n", t);
    hide Decimal, Trim, IntVal, Newline, TakeData;
  }

  /** Blanks around a length, and a plus sign before it, make no difference. */
  lemma {:induction false} TrimBlanks(before: string, t: string, after: string)
    requires forall c :: c in before || c in after ==> c in " \t\n\r\0\U{0B}"
    requires t != "" && t[0] !in " \t\n\r\0\U{0B}" && t[|t| - 1] !in " \t\n\r\0\U{0B}"
    ensures Trim(before + t + after) == t
    decreases |before|, |after|
  {
    var s := before + t + after;
    if before != "" {
      assert before[0] in before && s[0] == before[0];
      assert s[1..] == before[1..] + t + after;
      TrimBlanks(before[1..], t, after);
    } else if after != "" {
      var n := |after| - 1;
      assert after[n] in after && s[|s| - 1] == after[n] && s[0] == t[0];
      assert s[..|s| - 1] == before + t + after[..n];
      TrimBlanks(before, t, after[..n]);
    } else {
      assert s == t;
    }
  }

  lemma DecimalEnds(n: nat)
    ensures var s := Decimal(n); s[0] !in " \t\n\r\0\U{0B}+-" && s[|s| - 1] !in " \t\n\r\0\U{0B}"
  {
  }

  lemma SignedValue(n: nat)
    ensures IntVal("+" + Decimal(n)) == n && IntVal("-" + Decimal(n)) == 0 - n
  {
    var s := Decimal(n);
    assert ("+" + s)[1..] == s && ("-" + s)[1..] == s;
    AllDigits(s);
    assert s[..|s|] == s;
    ValueOfDecimal(n);
  }

  function Signed(plus: bool, n: nat): string {
    if plus then "+" + Decimal(n) else Decimal(n)
  }

  lemma SignedReads(plus: bool, n: nat)
    ensures var s := Signed(plus, n);
            && s != "" && s[0] !in " \t\n\r\0\U{0B}" && s[|s| - 1] !in " \t\n\r\0\U{0B}" && '\n' !in s
            && IntVal(s) == n
  {
    DecimalEnds(n);
    SignedValue(n);
    LengthLine(n);
    assert forall i :: 0 <= i < |Decimal(n)| ==> Digit(Decimal(n)[i]);
    hide Decimal, IntVal;
  }

  lemma TurnOfLine(line: string, number: string, n: nat, t: string)
    requires '\n' !in line && Trim(line + "\n") == number != "" && IntVal(number) == n
    ensures TakeTurn(line + "\n" + t) == TakeData(n, t)
  {
    NewlineAt(line, t);
    Cut(line + "\n", t);
    hide Trim, IntVal, Newline, TakeData;
  }

  /** A line that, blanks aside, is a length with or without a plus sign. */
  lemma TurnLoose(before: string, plus: bool, n: nat, after: string, t: string)
    requires forall c :: c in before || c in after ==> c in " \t\r\0\U{0B}"
    ensures TakeTurn(before + Signed(plus, n) + after + "\n" + t) == TakeData(n, t)
  {
    var number := Signed(plus, n);
    var line := before + number + after;
    SignedReads(plus, n);
    hide Trim, IntVal, Signed, TakeTurn, TakeData;
    assert forall c :: c in before || c in after ==> c in " \t\n\r\0\U{0B}" && c != '\n';
    LineEnds(before, number, after);
    TrimBlanks(before, number, after + "\n");
    TurnOfLine(line, number, n, t);
  }

  lemma LineEnds(before: string, number: string, after: string)
    requires '\n' !in before && '\n' !in number && '\n' !in after
    ensures before + number + after + "\n" == before + number + (after + "\n") && '\n' !in before + number + after
  {
  }

  /** A negative length spoils the message. */
  lemma NegativeLength(n: nat, t: string)
    requires n > 0
    ensures Parse("-" + Decimal(n) + "\n" + t) == Negative
  {
    var number := "-" + Decimal(n);
    DecimalEnds(n);
    TrimBlanks("", number, "\n");
    assert "" + number + "\n" == number + "\n";
    assert forall i :: 0 <= i < |Decimal(n)| ==> Digit(Decimal(n)[i]);
    NewlineAt(number, t);
    Cut(number + "\n", t);
    SignedValue(n);
    hide Decimal, Trim, IntVal, Newline;
  }

  lemma DecimalNumbers()
    ensures Decimal(3) == "3" && Decimal(10) == "10"
  {
    assert Decimal(1) == "1" && Decimal(10) == Decimal(1) + "0";
  }

  /** What goes over the wire for two parts of 3 and 10 bytes. */
  lemma FrameExample(p: string, q: string)
    requires |p| == 3 && |q| == 10
    ensures Frame([p, q]) == "3\n" + p + "\n" + ("10\n" + q + "\n\n")
  {
    DecimalNumbers();
    hide Decimal;
    assert [p, q][1..] == [q] && [q][1..] == [] && Frame([]) == "\n";
    assert Frame([q]) == Decimal(10) + "\n" + q + "\n" + Frame([]);
    assert Decimal(10) + "\n" == "10\n" && Decimal(3) + "\n" == "3\n";
    assert "10\n" + q + "\n" + "\n" == "10\n" + q + "\n\n";
  }

  lemma DataPart(p: string, u: string)
    ensures TakeData(|p|, p + "\n" + u) == Part(p, u)
  {
    Cut(p, "\n" + u);
    Cut(p + "\n", u);
    assert p + ("\n" + u) == p + "\n" + u;
    assert Newline("\n" + u) == 0;
    hide Newline;
  }

  lemma TurnPart(p: string, u: string)
    ensures TakeTurn(Decimal(|p|) + "\n" + (p + "\n" + u)) == Part(p, u)
  {
    TurnAfterLength(|p|, p + "\n" + u);
    DataPart(p, u);
    hide TakeTurn, TakeData, Decimal;
  }

  lemma TurnShort(p: string, t: string)
    requires t <= p
    ensures TakeTurn(Decimal(|p|) + "\n" + t) == Stop
  {
    TurnAfterLength(|p|, t);
    hide TakeTurn;
    if |t| == |p| { assert t[|p|..] == ""; }
  }

  lemma FrameHead(parts: seq<string>)
    requires parts != []
    ensures Frame(parts) == Decimal(|parts[0]|) + "\n" + (parts[0] + "\n" + Frame(parts[1..]))
  {
  }

  lemma FrameTail(parts: seq<string>, tail: string)
    requires parts != []
    ensures var p := parts[0];
            Frame(parts) + tail == Decimal(|p|) + "\n" + (p + "\n" + (Frame(parts[1..]) + tail))
  {
    FrameHead(parts);
    hide Frame, Decimal;
  }

  lemma ParseEmpty(tail: string)
    ensures Parse(Frame([]) + tail) == Done([], tail)
  {
    var s := Frame([]) + tail;
    Cut("\n", tail);
    assert s == "\n" + tail && Newline(s) == 0 && Trim("\n") == "";
  }

  lemma ParseOne(p: string, u: string)
    ensures Parse(Decimal(|p|) + "\n" + (p + "\n" + u)) == Prepend(p, Parse(u))
  {
    TurnPart(p, u);
    hide TakeTurn, Decimal;
  }

  lemma ParseFirst(parts: seq<string>, tail: string)
    requires parts != []
    ensures Parse(Frame(parts) + tail) == Prepend(parts[0], Parse(Frame(parts[1..]) + tail))
  {
    FrameTail(parts, tail);
    ParseOne(parts[0], Frame(parts[1..]) + tail);
    hide *;
  }

  lemma Rejoin(parts: seq<string>)
    requires parts != []
    ensures [parts[0]] + parts[1..] == parts
  {
  }

  /** Parsing undoes framing: the message comes back and exactly the tail is left. */
  lemma {:induction false} ParseFrame(parts: seq<string>, tail: string)
    ensures Parse(Frame(parts) + tail) == Done(parts, tail)
  {
    hide Parse, Frame;
    if parts == [] {
      ParseEmpty(tail);
    } else {
      ParseFrame(parts[1..], tail);
      ParseFirst(parts, tail);
      Rejoin(parts);
    }
  }

  /** No proper prefix of a frame is taken for a message. */
  lemma {:induction false} ParsePrefix(parts: seq<string>, n: nat)
    requires n < |Frame(parts)|
    ensures Parse(Frame(parts)[..n]) == Incomplete
    decreases |parts|
  {
    if parts == [] {
      assert Frame(parts)[..n] == "";
    } else {
      var p, rest := parts[0], parts[1..];
      var head, f := Decimal(|p|), Frame(parts);
      FrameHead(parts);
      if n <= |head| {
        assert f[..n] == head[..n];
        NewlineAt(head[..n], "");
      } else {
        hide TakeTurn, Decimal;
        var m := n - |head| - 1;
        var t := (p + "\n" + Frame(rest))[..m];
        assert f[..n] == head + "\n" + t;
        if m <= |p| {
          assert t <= p;
          TurnShort(p, t);
        } else {
          var k := m - |p| - 1;
          assert t == p + "\n" + Frame(rest)[..k];
          ParsePrefix(rest, k);
          TurnPart(p, Frame(rest)[..k]);
        }
      }
    }
  }

  // ----------------------------------------------------------------- receiving

  datatype Received =
    | Message(parts: seq<string>, buffer: string, unread: seq<string>)
    | Lost       // the exception 'Connection lost'
    | Bad        // a negative length
    | Waiting    // all that has arrived is read, and it is not enough

  /** What PHP's == takes for false. */
  predicate Falsy(data: string) {
    data == "" || data == "0"
  }

  /** recv, given what the following calls of fread return. */
  function Receive(buffer: string, chunks: seq<string>): Received
    decreases |chunks|
  {
    match Parse(buffer)
    case Done(parts, rest) => Message(parts, rest, chunks)
    case Negative => Bad
    case Incomplete =>
      if chunks == [] then Waiting
      else if Falsy(chunks[0]) then Lost
      else Receive(buffer + chunks[0], chunks[1..])
  }

  function Flat(chunks: seq<string>): string {
    if chunks == [] then "" else chunks[0] + Flat(chunks[1..])
  }

  /** Every chunk that arrives before the message is complete counts as true. */
  ghost predicate Accepted(have: nat, need: nat, chunks: seq<string>)
    decreases |chunks|
  {
    have >= need || (chunks != [] && !Falsy(chunks[0]) && Accepted(have + |chunks[0]|, need, chunks[1..]))
  }

  lemma CutBuffer(a: string, b: string, f: string, t: string)
    requires a + b == f + t && |a| >= |f|
    ensures a == f + a[|f|..] && a[|f|..] + b == t
  {
    assert a == (a + b)[..|a|] && t == (f + t)[|f|..];
    assert f == (f + t)[..|f|];
  }

  /** However the stream is cut: the message is received, and what follows it is kept, exactly when no chunk before
      its end is "0" or empty. */
  lemma {:induction false} ReceiveIff(parts: seq<string>, tail: string, buffer: string, chunks: seq<string>)
    requires buffer + Flat(chunks) == Frame(parts) + tail
    ensures var r := Receive(buffer, chunks);
            if Accepted(|buffer|, |Frame(parts)|, chunks)
            then r.Message? && r.parts == parts && r.buffer + Flat(r.unread) == tail
            else r == Lost
    decreases |chunks|
  {
    var f := Frame(parts);
    if |buffer| >= |f| {
      var t := buffer[|f|..];
      CutBuffer(buffer, Flat(chunks), f, tail);
      ParseFrame(parts, t);
    } else {
      CutBuffer(f, tail, buffer, Flat(chunks));
      assert buffer == f[..|buffer|];
      ParsePrefix(parts, |buffer|);
      hide Parse;
      assert chunks == [] ==> buffer + Flat(chunks) == buffer;
      if chunks != [] && !Falsy(chunks[0]) {
        assert (buffer + chunks[0]) + Flat(chunks[1..]) == buffer + Flat(chunks);
        ReceiveIff(parts, tail, buffer + chunks[0], chunks[1..]);
      }
    }
  }

  function Frames(messages: seq<seq<string>>): string {
    if messages == [] then "" else Frame(messages[0]) + Frames(messages[1..])
  }

  /** So many calls of recv, one after the other. */
  function ReceiveAll(n: nat, buffer: string, chunks: seq<string>): seq<seq<string>> {
    if n == 0 then []
    else
      match Receive(buffer, chunks)
      case Message(parts, rest, unread) => [parts] + ReceiveAll(n - 1, rest, unread)
      case _ => []
  }

  lemma {:induction false} StillTruthy(buffer: string, chunks: seq<string>)
    requires forall i :: 0 <= i < |chunks| ==> !Falsy(chunks[i])
    ensures var r := Receive(buffer, chunks);
            r.Message? ==> forall i :: 0 <= i < |r.unread| ==> !Falsy(r.unread[i])
    decreases |chunks|
  {
    if Parse(buffer) == Incomplete && chunks != [] { StillTruthy(buffer + chunks[0], chunks[1..]); }
  }

  lemma {:induction false} AllAccepted(have: nat, need: nat, chunks: seq<string>)
    requires have + |Flat(chunks)| >= need && forall i :: 0 <= i < |chunks| ==> !Falsy(chunks[i])
    ensures Accepted(have, need, chunks)
    decreases |chunks|
  {
    if have < need { AllAccepted(have + |chunks[0]|, need, chunks[1..]); }
  }

  /** The messages received depend on the bytes of the stream and not on how accepted chunks cut it. */
  lemma {:induction false} ReceiveMany(messages: seq<seq<string>>, buffer: string, chunks: seq<string>)
    requires buffer + Flat(chunks) == Frames(messages)
    requires forall i :: 0 <= i < |chunks| ==> !Falsy(chunks[i])
    ensures ReceiveAll(|messages|, buffer, chunks) == messages
  {
    if messages != [] {
      var tail := Frames(messages[1..]);
      ReceiveIff(messages[0], tail, buffer, chunks);
      hide Receive, Frame, Accepted, Flat;
      assert |buffer| + |Flat(chunks)| == |buffer + Flat(chunks)|;
      AllAccepted(|buffer|, |Frame(messages[0])|, chunks);
      StillTruthy(buffer, chunks);
      var r := Receive(buffer, chunks);
      ReceiveMany(messages[1..], r.buffer, r.unread);
      assert messages == [messages[0]] + messages[1..];
    }
  }

  // ----------------------------------------------------------------- the client object

  function PrependAll(ret: seq<string>, o: Outcome): Outcome {
    match o
    case Done(parts, rest) => Done(ret + parts, rest)
    case other => other
  }

  lemma PrependOne(ret: seq<string>, data: string, o: Outcome)
    ensures PrependAll(ret, Prepend(data, o)) == PrependAll(ret + [data], o)
  {
    if o.Done? { assert ret + ([data] + o.parts) == ret + [data] + o.parts; }
  }

  /** The second half of the parser's loop, on positions in the buffer. */
  method DataAt(buf: string, spos: nat, num: nat) returns (turn: Turn, epos: nat)
    requires spos <= |buf|
    ensures turn == TakeData(num, buf[spos..])
    ensures turn.Part? ==> spos < epos <= |buf| && buf[epos..] == turn.after
  {
    ghost var body := buf[spos..];
    epos := spos + num;
    if epos > |buf| {
      return Stop, epos;
    }
    var data := buf[spos..epos];
    assert data == body[..num] && buf[epos..] == body[num..];
    var e := Newline(buf[epos..]);
    if epos + e == |buf| {
      return Stop, epos;
    }
    epos := epos + e + 1;
    assert buf[epos..] == body[num + e + 1..];
    return Part(data, buf[epos..]), epos;
  }

  /** The body of the parser's loop. */
  method TurnAt(buf: string, start: nat) returns (turn: Turn, epos: nat)
    requires start <= |buf|
    ensures turn == TakeTurn(buf[start..])
    ensures turn.Part? ==> start < epos <= |buf| && buf[epos..] == turn.after
  {
    hide TakeData, Trim, IntVal;
    ghost var s := buf[start..];
    epos := start;
    var e := Newline(buf[start..]);
    if start + e == |buf| {
      return Stop, epos;
    }
    epos := start + e + 1;
    var line := buf[start..epos];
    assert line == s[..e + 1] && buf[epos..] == s[e + 1..];
    line := Trim(line);
    if |line| == 0 {
      return End(buf[epos..]), epos;
    }
    var num := IntVal(line);
    if num < 0 {
      return Minus, epos;
    }
    turn, epos := DataAt(buf, epos, num);
  }

  class Client {
    var recvBuf: string

    /** parse: the buffer changes only when a message is complete. */
    method ParseBuffer() returns (found: bool, negative: bool, ret: seq<string>)
      modifies this
      ensures match Parse(old(recvBuf))
              case Incomplete => !found && !negative && recvBuf == old(recvBuf)
              case Negative => !found && negative && recvBuf == old(recvBuf)
              case Done(parts, rest) => found && !negative && ret == parts && recvBuf == rest
    {
      hide TakeTurn;
      found, negative, ret := false, false, [];
      var pos := 0;
      ghost var start := recvBuf;
      while true
        invariant 0 <= pos <= |recvBuf| && recvBuf == start
        invariant Parse(start) == PrependAll(ret, Parse(recvBuf[pos..]))
        decreases |recvBuf| - pos
      {
        var turn, next := TurnAt(recvBuf, pos);
        match turn
        case Stop => return;
        case Minus => negative := true; return;
        case End(rest) =>
          recvBuf := rest;
          found := true;
          return;
        case Part(data, after) =>
          PrependOne(ret, data, Parse(after));
          ret := ret + [data];
          pos := next;
      }
    }

    /** recv, with the results of the next calls of fread. */
    method Recv(chunks: seq<string>) returns (r: Received)
      modifies this
      ensures r == Receive(old(recvBuf), chunks)
      ensures r.Message? ==> recvBuf == r.buffer
    {
      var next := 0;
      while true
        invariant 0 <= next <= |chunks|
        invariant Receive(recvBuf, chunks[next..]) == Receive(old(recvBuf), chunks)
        decreases |chunks| - next
      {
        var found, negative, ret := ParseBuffer();
        if found {
          return Message(ret, recvBuf, chunks[next..]);
        }
        if negative {
          return Bad;
        }
        if next == |chunks| {
          return Waiting;
        }
        var data := chunks[next];
        if Falsy(data) {
          return Lost;
        }
        recvBuf := recvBuf + data;
        next := next + 1;
      }
    }
  }
}
