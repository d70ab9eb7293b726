/**
 The body of a message from the wire to the relay: readData of internal/smtpd/session.go (termination and
 dot-unstuffing, section 4.5.2 of RFC 5321) and normalizeCRLF of internal/relay/deliver.go.
 */
module DataTransfer {
  import opened LineReader

  const DOT: byte := 46

  const CRLF: seq<byte> := [CR, LF]

  /** strings.TrimRight(line, "\r\n"). */
  function TrimEol(line: seq<byte>): seq<byte> {
    if line != [] && (line[|line| - 1] == CR || line[|line| - 1] == LF) then TrimEol(line[..|line| - 1]) else line
  }

  function Unstuff(line: seq<byte>): seq<byte> {
    if line != [] && line[0] == DOT then line[1..] else line
  }

  /** How reading a body ends: at the terminator, within the limit or not, or with the connection. */
  datatype Outcome = Body(data: seq<byte>, over: bool) | Aborted

  datatype Transfer = Transfer(outcome: Outcome, left: seq<byte>)

  /** Reads on from `input` with `n` bytes counted and `data` collected. */
  function Receive(input: seq<byte>, limit: int, n: nat, over: bool, data: seq<byte>): Transfer
    decreases |input|
  {
    if !HasLine(input) then Transfer(Aborted, [])
    else
      var line := if over then [] else TrimEol(FirstLine(input));
      var rest := input[|FirstLine(input)|..];
      var n' := n + |line| + 1;
      var over' := over || n' > limit;
      if line == [DOT] then Transfer(Body(data, over'), rest)
      else if over' then Receive(rest, limit, n', true, data)
      else Receive(rest, limit, n', false, data + Unstuff(line) + [LF])
  }

  /** In discard mode the bytes are dropped, so the line reads as empty. */
  method ReadDataLine(c: Connection, discard: bool) returns (line: seq<byte>, ok: bool)
    requires 0 < c.capacity
    modifies c`input
    ensures ok <==> HasLine(old(c.input))
    ensures ok ==> c.input == old(c.input)[|FirstLine(old(c.input))|..]
    ensures ok ==> line == if discard then [] else TrimEol(FirstLine(old(c.input)))
    ensures !ok ==> c.input == []
  {
    var raw;
    raw, ok := c.ReadRaw(if discard then 0 else -1);
    line := TrimEol(raw);
  }

  method ReadData(c: Connection, limit: int) returns (r: Outcome)
    requires 0 < c.capacity
    modifies c`input
    ensures Transfer(r, c.input) == Receive(old(c.input), limit, 0, false, [])
  {
    var data: seq<byte>, n, over := [], 0, false;
    ghost var goal := Receive(c.input, limit, 0, false, []);
    while true
      invariant 0 <= n && Receive(c.input, limit, n, over, data) == goal
      decreases |c.input|
    {
      ghost var before := c.input;
      var line, ok := ReadDataLine(c, over);
      if !ok {
        return Aborted;
      }
      n := n + |line| + 1;
      if n > limit {
        over := true;
      }
      if line == [DOT] {
        return Body(data, over);
      }
      if !over {
        data := data + Unstuff(line) + [LF];
      }
    }
  }

  /** A line a client may send: without line feed and not ending in a carriage return. */
  ghost predicate Clean(line: seq<byte>) {
    LF !in line && (line == [] || line[|line| - 1] != CR)
  }

  ghost predicate AllClean(lines: seq<seq<byte>>) {
    forall i :: 0 <= i < |lines| ==> Clean(lines[i])
  }

  /** Dot-stuffing, as the client does it. */
  function Stuff(line: seq<byte>): seq<byte> {
    if line != [] && line[0] == DOT then [DOT] + line else line
  }

  /** The lines on the wire, each stuffed and ended by CRLF. */
  function Wire(lines: seq<seq<byte>>): seq<byte> {
    if lines == [] then [] else Stuff(lines[0]) + CRLF + Wire(lines[1..])
  }

  /** The lines as they are stored, each ended by LF. */
  function Stored(lines: seq<seq<byte>>): seq<byte> {
    if lines == [] then [] else lines[0] + [LF] + Stored(lines[1..])
  }

  /** The lines as they are relayed, each ended by CRLF. */
  function Relayed(lines: seq<seq<byte>>): seq<byte> {
    if lines == [] then [] else lines[0] + CRLF + Relayed(lines[1..])
  }

  /** What the size counter sees of the lines. */
  function WireSize(lines: seq<seq<byte>>): nat {
    if lines == [] then 0 else |Stuff(lines[0])| + 1 + WireSize(lines[1..])
  }

  lemma TrimEolClean(line: seq<byte>)
    requires line == [] || (line[|line| - 1] != CR && line[|line| - 1] != LF)
    ensures TrimEol(line + CRLF) == line
  {
    var l1 := line + CRLF;
    var l2 := line + [CR];
    assert l1[..|l1| - 1] == l2 && l2[..|l2| - 1] == line;
    assert TrimEol(l1) == TrimEol(l2) == TrimEol(line);
  }

  /** The first line of a stream that begins with a clean line. */
  lemma FirstOf(line: seq<byte>, rest: seq<byte>)
    requires Clean(line)
    ensures HasLine(line + CRLF + rest) && FirstLine(line + CRLF + rest) == line + CRLF
    ensures (line + CRLF + rest)[|line + CRLF|..] == rest && TrimEol(line + CRLF) == line
  {
    var s := line + CRLF + rest;
    assert s[|line|] == CR && s[|line| + 1] == LF;
    forall i | 0 <= i <= |line| ensures s[i] != LF {
      if i < |line| { assert s[i] == line[i]; }
    }
    IndexOfIs(s, LF, |line| + 1);
    TrimEolClean(line);
  }

  /** Once the limit is exceeded no later line is recognised as the terminator: everything is read and then aborted. */
  lemma {:induction false} NoTerminatorOnceOver(input: seq<byte>, limit: int, n: nat, data: seq<byte>)
    ensures Receive(input, limit, n, true, data) == Transfer(Aborted, [])
    decreases |input|
  {
    if HasLine(input) {
      NoTerminatorOnceOver(input[|FirstLine(input)|..], limit, n + 1, data);
    }
  }

  lemma StuffProperties(line: seq<byte>)
    requires Clean(line)
    ensures Clean(Stuff(line)) && Unstuff(Stuff(line)) == line && Stuff(line) != [DOT]
  {
  }

  function Verdict(size: nat, limit: int, data: seq<byte>, tail: seq<byte>): Transfer {
    if size + 2 <= limit then Transfer(Body(data, false), tail)
    else if size <= limit then Transfer(Body(data, true), tail)
    else Transfer(Aborted, [])
  }

  /** Trimming takes exactly the carriage returns and line feeds off the end of a line. */
  lemma {:induction false} TrimEolLaw(line: seq<byte>, end: seq<byte>)
    requires line == [] || (line[|line| - 1] != 13 && line[|line| - 1] != 10)
    requires forall i :: 0 <= i < |end| ==> end[i] == 13 || end[i] == 10
    ensures TrimEol(line + end) == line
    decreases |end|
  {
    if end == [] {
      assert line + end == line;
    } else {
      var s, n := line + end, |end| - 1;
      assert s[|s| - 1] == end[n] && s[..|s| - 1] == line + end[..n];
      TrimEolLaw(line, end[..n]);
    }
  }

  /** One dot in front of a line is taken away, whatever follows, and nothing else. */
  lemma UnstuffLaw(line: seq<byte>)
    ensures Unstuff([46] + line) == line && (line == [] || line[0] != 46 ==> Unstuff(line) == line)
  {
    assert ([46] + line)[1..] == line;
  }

  /** What is counted is what goes over the wire, one byte for each line end. */
  lemma {:induction false} WireSizeLaw(lines: seq<seq<byte>>)
    ensures |Wire(lines)| == WireSize(lines) + |lines|
  {
    if lines != [] { WireSizeLaw(lines[1..]); }
  }

  /** One line further. */
  lemma ReceiveLine(input: seq<byte>, line: seq<byte>, rest: seq<byte>, limit: int, n: nat, data: seq<byte>)
    requires HasLine(input) && TrimEol(FirstLine(input)) == line && input[|FirstLine(input)|..] == rest
    ensures line == [DOT] ==>
      Receive(input, limit, n, false, data) == Transfer(Body(data, n + |line| + 1 > limit), rest)
    ensures line != [DOT] && n + |line| + 1 > limit ==> Receive(input, limit, n, false, data) == Transfer(Aborted, [])
    ensures line != [DOT] && n + |line| + 1 <= limit ==>
      Receive(input, limit, n, false, data) == Receive(rest, limit, n + |line| + 1, false, data + Unstuff(line) + [LF])
  {
    NoTerminatorOnceOver(rest, limit, n + |line| + 1, data);
  }

  /** A stuffed line goes to the collected data unstuffed, or takes the body over the limit for good. */
  lemma ReceiveStuffed(input: seq<byte>, line: seq<byte>, rest: seq<byte>, limit: int, n: nat, n': nat,
                       data: seq<byte>, data': seq<byte>)
    requires Clean(line) && input == Stuff(line) + CRLF + rest
    requires n' == n + |Stuff(line)| + 1 && data' == data + line + [LF]
    ensures Receive(input, limit, n, false, data) ==
      if n' <= limit then Receive(rest, limit, n', false, data') else Transfer(Aborted, [])
  {
    var stuffed := Stuff(line);
    StuffProperties(line);
    ReceiveFirst(input, stuffed, rest, limit, n, data);
    assert data + Unstuff(stuffed) + [LF] == data';
  }

  lemma ReceiveFirst(input: seq<byte>, line: seq<byte>, rest: seq<byte>, limit: int, n: nat, data: seq<byte>)
    requires Clean(line) && input == line + CRLF + rest && line != [DOT]
    ensures Receive(input, limit, n, false, data) ==
      if n + |line| + 1 <= limit then Receive(rest, limit, n + |line| + 1, false, data + Unstuff(line) + [LF])
      else Transfer(Aborted, [])
  {
    FirstOf(line, rest);
    ReceiveLine(input, line, rest, limit, n, data);
  }

  lemma ReceiveTerminator(input: seq<byte>, tail: seq<byte>, limit: int, n: nat, data: seq<byte>)
    requires input == [DOT] + CRLF + tail && n <= limit
    ensures Receive(input, limit, n, false, data) == Verdict(n, limit, data, tail)
  {
    FirstOf([DOT], tail);
    ReceiveLine(input, [DOT], tail, limit, n, data);
  }

  lemma WireApart(lines: seq<seq<byte>>, end: seq<byte>)
    requires lines != []
    ensures Wire(lines) + end == Stuff(lines[0]) + CRLF + (Wire(lines[1..]) + end)
  {
  }

  lemma StoredApart(lines: seq<seq<byte>>, data: seq<byte>)
    requires lines != []
    ensures data + Stored(lines) == data + lines[0] + [LF] + Stored(lines[1..])
  {
  }

  lemma {:induction false} ReceiveFrom(lines: seq<seq<byte>>, tail: seq<byte>, limit: int, n: nat, data: seq<byte>)
    requires AllClean(lines) && n <= limit
    ensures Receive(Wire(lines) + ([DOT] + CRLF + tail), limit, n, false, data)
         == Verdict(n + WireSize(lines), limit, data + Stored(lines), tail)
    decreases |lines|
  {
    var end := [DOT] + CRLF + tail;
    var input, all := Wire(lines) + end, data + Stored(lines);
    if lines == [] {
      assert input == end && all == data;
      ReceiveTerminator(input, tail, limit, n, data);
    } else {
      WireApart(lines, end);
      StoredApart(lines, data);
      var rest, n', data' := Wire(lines[1..]) + end, n + |Stuff(lines[0])| + 1, data + lines[0] + [LF];
      ReceiveStuffed(input, lines[0], rest, limit, n, n', data, data');
      if n' <= limit {
        ReceiveFrom(lines[1..], tail, limit, n', data');
      }
    }
  }

  lemma {:induction false} StoredSmaller(lines: seq<seq<byte>>)
    ensures |Stored(lines)| <= WireSize(lines)
  {
    if lines != [] { StoredSmaller(lines[1..]); }
  }

  /**
   Reading a dot-stuffed body stops right behind the terminator and yields the lines, within the limit exactly when
   the counted size plus two is; a body that exceeds the limit before its terminator swallows the whole connection.
   */
  lemma BodyReceived(lines: seq<seq<byte>>, tail: seq<byte>, limit: nat)
    requires AllClean(lines)
    ensures Receive(Wire(lines) + ([DOT] + CRLF + tail), limit, 0, false, [])
         == Verdict(WireSize(lines), limit, Stored(lines), tail)
    ensures WireSize(lines) + 2 <= limit ==> |Stored(lines)| <= limit - 2
  {
    assert [] + Stored(lines) == Stored(lines);
    assert 0 + WireSize(lines) == WireSize(lines);
    ReceiveFrom(lines, tail, limit, 0, []);
    StoredSmaller(lines);
  }

  /** bytes.ReplaceAll(data, "\r\n", "\n"). */
  function Unify(s: seq<byte>): seq<byte> {
    if |s| < 2 then s
    else if s[0] == CR && s[1] == LF then [LF] + Unify(s[2..])
    else [s[0]] + Unify(s[1..])
  }

  /** bytes.Split(data, "\n"). */
  function SplitLF(s: seq<byte>): (r: seq<seq<byte>>)
    ensures r != []
    decreases |s|
  {
    var i := IndexOf(s, LF);
    if i == |s| then [s] else [s[..i]] + SplitLF(s[i + 1..])
  }

  /** bytes.TrimSuffix(line, "\r"). */
  function Chomp(line: seq<byte>): seq<byte> {
    if line != [] && line[|line| - 1] == CR then line[..|line| - 1] else line
  }

  function ChompAll(lines: seq<seq<byte>>): seq<seq<byte>> {
    seq(|lines|, i requires 0 <= i < |lines| => Chomp(lines[i]))
  }

  function DropEmptyLast(lines: seq<seq<byte>>): seq<seq<byte>> {
    if lines != [] && lines[|lines| - 1] == [] then lines[..|lines| - 1] else lines
  }

  /** No line at all still yields one line end. */
  function Render(lines: seq<seq<byte>>): seq<byte> {
    if lines == [] then CRLF else Relayed(lines)
  }

  function Normalize(data: seq<byte>): seq<byte> {
    Render(ChompAll(DropEmptyLast(SplitLF(Unify(data)))))
  }

  lemma {:induction false} RelayedAppend(lines: seq<seq<byte>>, line: seq<byte>)
    ensures Relayed(lines + [line]) == Relayed(lines) + line + CRLF
  {
    if lines == [] {
      assert [line][1..] == [] && Relayed([]) == [];
      assert lines + [line] == [line];
    } else {
      RelayedAppend(lines[1..], line);
      assert (lines + [line])[1..] == lines[1..] + [line];
    }
  }

  method NormalizeCRLF(data: seq<byte>) returns (out: seq<byte>)
    ensures out == Normalize(data)
  {
    var lines := DropEmptyLast(SplitLF(Unify(data)));
    ghost var done := ChompAll(lines);
    out := [];
    for i := 0 to |lines|
      invariant i == 0 ==> out == []
      invariant if i < |lines| then out == Relayed(done[..i]) else 0 < i ==> out + CRLF == Relayed(done)
    {
      RelayedAppend(done[..i], done[i]);
      assert done[..i + 1] == done[..i] + [done[i]];
      assert i + 1 == |lines| ==> done[..i + 1] == done;
      out := out + Chomp(lines[i]);
      if i < |lines| - 1 {
        out := out + CRLF;
      }
    }
    out := out + CRLF;
  }

  lemma {:induction false} UnifyStored(lines: seq<seq<byte>>)
    requires AllClean(lines)
    ensures Unify(Stored(lines)) == Stored(lines)
    decreases |lines|, 1
  {
    if lines != [] {
      UnifyPlain(lines[0], lines[1..]);
      assert Stored(lines) == lines[0] + [LF] + Stored(lines[1..]);
    }
  }

  lemma {:induction false} UnifyPlain(line: seq<byte>, lines: seq<seq<byte>>)
    requires Clean(line) && AllClean(lines)
    ensures Unify(line + [LF] + Stored(lines)) == line + [LF] + Stored(lines)
    decreases |lines|, 2, |line|
  {
    var s := line + [LF] + Stored(lines);
    if line == [] {
      UnifyStored(lines);
      assert s[1..] == Stored(lines);
      if |s| >= 2 { assert Unify(s) == [s[0]] + Unify(s[1..]); }
    } else {
      UnifyPlain(line[1..], lines);
      assert s[1..] == line[1..] + [LF] + Stored(lines);
      assert s[0] == line[0] && s[1] == if |line| > 1 then line[1] else LF;
      assert !(s[0] == CR && s[1] == LF);
      assert Unify(s) == [s[0]] + Unify(s[1..]);
    }
  }

  lemma {:induction false} SplitStored(lines: seq<seq<byte>>)
    requires AllClean(lines)
    ensures SplitLF(Stored(lines)) == lines + [[]]
  {
    if lines != [] {
      var s := Stored(lines);
      assert s == lines[0] + [LF] + Stored(lines[1..]);
      assert IndexOf(s, LF) == |lines[0]| by {
        assert s[|lines[0]|] == LF;
        assert forall i :: 0 <= i < |lines[0]| ==> s[i] == lines[0][i];
        IndexOfIs(s, LF, |lines[0]|);
      }
      assert s[..|lines[0]|] == lines[0] && s[|lines[0]| + 1..] == Stored(lines[1..]);
      SplitStored(lines[1..]);
    }
  }

  lemma NormalizeStored(lines: seq<seq<byte>>)
    requires AllClean(lines)
    ensures Normalize(Stored(lines)) == Render(lines)
  {
    UnifyStored(lines);
    SplitStored(lines);
    assert DropEmptyLast(lines + [[]]) == lines;
    assert ChompAll(lines) == lines;
  }

  /**
   End to end: any non-empty list of lines that fits the limit is stuffed by the client, received, stored and
   relayed as exactly those lines, each ended by CRLF.
   */
  lemma BodyTransparent(lines: seq<seq<byte>>, tail: seq<byte>, limit: nat)
    requires AllClean(lines) && lines != [] && WireSize(lines) + 2 <= limit
    ensures var t := Receive(Wire(lines) + ([DOT] + CRLF + tail), limit, 0, false, []);
      t.left == tail && t.outcome.Body? && !t.outcome.over && Normalize(t.outcome.data) == Relayed(lines)
      && |t.outcome.data| <= limit - 2
  {
    BodyReceived(lines, tail, limit);
    NormalizeStored(lines);
  }
}
