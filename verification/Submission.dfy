/** The DATA command from the byte stream to the session log: handleData of internal/smtpd/session.go with readData. */
module Submission {
  import opened LineReader
  import opened DataTransfer
  import opened Wrappers
  import Session

  /** What the session makes of the end of the reading. */
  function ReadingOf(o: Outcome): Session.Reading {
    match o
    case Aborted => Session.ReadFails
    case Body(_, over) => if over then Session.TooLarge else Session.Complete
  }

  /** Nothing is read before login, sender and recipients are there. */
  method DataCommand(conn: Session.Conn, c: Connection, w: Session.World) returns (data: seq<byte>)
    requires conn.Valid() && 0 < c.capacity
    modifies conn, c`input
    ensures conn.Valid()
    ensures !Session.MaySend(old(conn.Current())) ==> conn.Current() == old(conn.Current()) && c.input == old(c.input)
    ensures Session.MaySend(old(conn.Current())) ==>
      var t := Receive(old(c.input), conn.setting.maxMessageSize, 0, false, []);
      && c.input == t.left && (t.outcome.Body? ==> data == t.outcome.data)
      && conn.Current() == Session.AfterData(old(conn.Current()), w.(reading := ReadingOf(t.outcome)))
  {
    data := [];
    if conn.user == None || conn.sender == "" || conn.rcpts == [] {
      return;
    }
    var r := ReadData(c, conn.setting.maxMessageSize);
    if r.Body? { data := r.data; }
    conn.HandleData(w.(reading := ReadingOf(r)));
  }

  /** The log with the message of the current envelope, if it was queued. */
  function Logged(st: Session.State, queued: bool): seq<Session.Entry>
    requires Session.MaySend(st)
  {
    if queued then st.log + [Session.Queued(st.user.value, st.sender, st.rcpts)] else st.log
  }

  /**
   A client that may send transmits the lines of a body. The message is queued exactly when the counted size plus two is
   within the limit and the queue takes it; what will be relayed are then exactly the lines, each ended by CRLF (one
   empty line for an empty body). The login is used up and the stream stands behind the terminator unless the size alone
   exceeds the limit, in which case everything the client sends is swallowed and the session is as before.
   */
  lemma BodyToLog(st: Session.State, w: Session.World, lines: seq<seq<byte>>, tail: seq<byte>, limit: nat)
    requires Session.MaySend(st) && AllClean(lines)
    ensures
      var t := Receive(Wire(lines) + ([DOT] + CRLF + tail), limit, 0, false, []);
      var after := Session.AfterData(st, w.(reading := ReadingOf(t.outcome)));
      var fits := WireSize(lines) + 2 <= limit;
      && after.log == Logged(st, fits && w.queueTakes)
      && (fits ==> t.outcome.Body? && Normalize(t.outcome.data) == Render(lines))
      && (if WireSize(lines) <= limit then t.left == tail && after.user == None && after.rcpts == []
          else t.left == [] && after == st)
  {
    BodyReceived(lines, tail, limit);
    NormalizeStored(lines);
  }
}
