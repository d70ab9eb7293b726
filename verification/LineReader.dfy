/**
 Reading lines through a buffer of fixed capacity (readRaw of internal/smtpd/session.go).
 The buffered reader hands out fragments: a line that fits, a full buffer without a line end, or the tail at the end
 of the stream.
 */
module LineReader {
  type byte = x: int | 0 <= x < 256

  const LF: byte := 10
  const CR: byte := 13

  /** The position of the first `c`, or the length if there is none. */
  function IndexOf(s: seq<byte>, c: byte): (i: nat)
    ensures i <= |s|
  {
    if s == [] || s[0] == c then 0 else 1 + IndexOf(s[1..], c)
  }

  lemma {:induction false} IndexOfFirst(s: seq<byte>, c: byte)
    ensures var i := IndexOf(s, c); (i < |s| ==> s[i] == c) && forall j :: 0 <= j < i ==> s[j] != c
  {
    if s != [] && s[0] != c {
      IndexOfFirst(s[1..], c);
    }
  }

  lemma IndexOfIs(s: seq<byte>, c: byte, i: nat)
    requires i < |s| && s[i] == c && forall j :: 0 <= j < i ==> s[j] != c
    ensures IndexOf(s, c) == i
  {
    IndexOfFirst(s, c);
  }

  predicate HasLine(s: seq<byte>) {
    IndexOf(s, LF) < |s|
  }

  /** The first line of a stream with its line end, or all of it if it has none. */
  function FirstLine(s: seq<byte>): seq<byte> {
    if HasLine(s) then s[..IndexOf(s, LF) + 1] else s
  }

  datatype ReadError = NoError | BufferFull | EndOfStream

  /** The largest multiple of the capacity that is at most `n`. */
  function Whole(n: nat, cap: nat): (r: nat)
    requires 0 < cap
    ensures r <= n
  {
    n - n % cap
  }

  function Least(a: nat, b: nat): nat {
    if a < b then a else b
  }

  /** What a length limit of `mode` leaves of a line that arrives in fragments of `cap` bytes. */
  function Limited(line: seq<byte>, cap: nat, mode: nat): seq<byte>
    requires 0 < cap && line != []
  {
    var start := Whole(|line| - 1, cap);                 // where the last fragment begins
    var kept := Least(start, Whole(mode, cap));
    line[..kept] + if kept + |line| - start <= mode then line[start..] else []
  }

  /** What each mode returns for a line: everything, nothing, or a bounded part. */
  function Kept(line: seq<byte>, cap: nat, mode: int): seq<byte>
    requires 0 < cap && line != []
  {
    if mode < 0 then line else if mode == 0 then [] else Limited(line, cap, mode)
  }

  lemma MultipleGap(a: nat, b: nat, cap: nat)
    requires 0 < cap && a % cap == 0 && b % cap == 0 && a < b
    ensures a + cap <= b
  {
    var q, r := a / cap, b / cap;
    assert a == cap * q && b == cap * r;
    assert q < r;
    assert cap * (q + 1) <= cap * r;
  }

  lemma NextMultiple(a: nat, cap: nat)
    requires 0 < cap && a % cap == 0
    ensures (a + cap) % cap == 0
  {
    var q := a / cap;
    assert a == cap * q;
    assert a + cap == cap * (q + 1);
    MultipleMod(q + 1, cap);
  }

  lemma MultipleMod(q: nat, cap: nat)
    requires 0 < cap
    ensures (cap * q) % cap == 0
  {
    var k := (cap * q) / cap;
    assert cap * q == cap * k + (cap * q) % cap;
    assert k + 1 <= q ==> cap * (k + 1) <= cap * q;
    assert q + 1 <= k ==> cap * (q + 1) <= cap * k;
  }

  lemma WholeIsMultiple(n: nat, cap: nat)
    requires 0 < cap
    ensures Whole(n, cap) % cap == 0 && n < Whole(n, cap) + cap
  {
    assert n - n % cap == cap * (n / cap);
    MultipleMod(n / cap, cap);
  }

  /** `Whole` is determined by being a multiple within reach. */
  lemma WholeUnique(n: nat, c: nat, cap: nat)
    requires 0 < cap && c % cap == 0 && c <= n < c + cap
    ensures Whole(n, cap) == c
  {
    WholeIsMultiple(n, cap);
    if c < Whole(n, cap) {
      MultipleGap(c, Whole(n, cap), cap);
    } else if Whole(n, cap) < c {
      MultipleGap(Whole(n, cap), c, cap);
    }
  }

  /** A line within the limit comes back whole, and no result exceeds the limit: "line too long" is never reported. */
  lemma WithinLimit(line: seq<byte>, cap: nat, mode: nat)
    requires 0 < cap && line != []
    ensures |line| <= mode ==> Limited(line, cap, mode) == line
    ensures |Limited(line, cap, mode)| <= mode
  {
    var start, whole := Whole(|line| - 1, cap), Whole(mode, cap);
    WholeIsMultiple(|line| - 1, cap);
    WholeIsMultiple(mode, cap);
    if |line| <= mode && whole < start {
      MultipleGap(whole, start, cap);
    }
  }

  /** When the capacity divides the limit, an over-long line comes back cut exactly at the limit. */
  lemma CutAtLimit(line: seq<byte>, cap: nat, mode: nat)
    requires 0 < cap && line != [] && mode % cap == 0 && mode < |line|
    ensures Limited(line, cap, mode) == line[..mode]
  {
    var start := Whole(|line| - 1, cap);
    WholeIsMultiple(|line| - 1, cap);
    if start < mode {
      MultipleGap(start, mode, cap);
    }
  }

  ghost predicate IsLine(line: seq<byte>) {
    line != [] && line[|line| - 1] == LF && forall i :: 0 <= i < |line| - 1 ==> line[i] != LF
  }

  /** A line of `n` bytes. */
  function Filler(n: nat): (line: seq<byte>)
    requires 0 < n
    ensures |line| == n && IsLine(line)
  {
    seq(n, i => if i == n - 1 then LF else 97)
  }

  /** Truncation always yields a prefix exactly when the capacity divides the limit. */
  lemma PrefixIffDivides(cap: nat, mode: nat)
    requires 0 < cap
    ensures (forall line :: IsLine(line) ==> Limited(line, cap, mode) <= line) <==> mode % cap == 0
  {
    if mode % cap == 0 {
      forall line | IsLine(line) ensures Limited(line, cap, mode) <= line {
        if |line| <= mode { WithinLimit(line, cap, mode); } else { CutAtLimit(line, cap, mode); }
      }
    } else {
      var whole := Whole(mode, cap);
      WholeIsMultiple(mode, cap);
      var line := Filler(whole + cap + 1);
      NextMultiple(whole, cap);
      WholeUnique(whole + cap, whole + cap, cap);
      assert Limited(line, cap, mode)[whole] == LF && line[whole] != LF;
      assert IsLine(line) && !(Limited(line, cap, mode) <= line);
    }
  }

  class Connection {
    var input: seq<byte>       // what the peer has sent and nobody has read
    const capacity: nat        // of the read buffer

    constructor (input: seq<byte>, capacity: nat)
      ensures this.input == input && this.capacity == capacity
    {
      this.input, this.capacity := input, capacity;
    }

    method ReadSlice() returns (frag: seq<byte>, err: ReadError)
      requires 0 < capacity
      modifies `input
      ensures old(input) == frag + input && |frag| <= capacity
      ensures err == NoError ==> IsLine(frag)
      ensures err == BufferFull ==> |frag| == capacity && LF !in frag
      ensures err == EndOfStream ==> input == [] && LF !in frag
    {
      var i := IndexOf(input, LF);
      IndexOfFirst(input, LF);
      if i < |input| && i < capacity {
        frag, input, err := input[..i + 1], input[i + 1..], NoError;
      } else if |input| >= capacity {
        frag, input, err := input[..capacity], input[capacity..], BufferFull;
      } else {
        frag, input, err := input, [], EndOfStream;
      }
    }

    /**
     Reads through the first line end in every mode, however the fragments fall; `mode < 0` keeps all bytes,
     `mode == 0` none, and `mode > 0` at most `mode` of them. The branch that would report an over-long line is dead.
     */
    method ReadRaw(mode: int) returns (text: seq<byte>, ok: bool)
      requires 0 < capacity
      modifies `input
      ensures ok <==> HasLine(old(input))
      ensures ok ==>
        input == old(input)[|FirstLine(old(input))|..] && text == Kept(FirstLine(old(input)), capacity, mode)
      ensures !ok ==> input == []
      ensures mode > 0 ==> |text| <= mode
    {
      ghost var all := input;
      ghost var read := 0;
      text := [];
      while true
        invariant 0 <= read <= |all| && input == all[read..] && read % capacity == 0
        invariant forall i :: 0 <= i < read ==> all[i] != LF
        invariant KeptSoFar(all, read, text, capacity, mode)
        decreases |input|
      {
        var frag, err := ReadSlice();
        assert all[read..] == frag + input;
        ghost var before := text;
        if mode < 0 || (mode > 0 && |text| + |frag| <= mode) {
          text := text + frag;
        }
        if err == NoError {
          LineRead(all, read, frag, input, before, text, capacity, mode);
          return text, true;
        } else if err == EndOfStream {
          NoLine(all, read, frag);
          return text, false;
        }
        if mode > 0 { FullFragment(read, capacity, mode); }
        NextMultiple(read, capacity);
        read := read + capacity;
      }
    }
  }

  lemma LineFound(all: seq<byte>, read: nat, frag: seq<byte>)
    requires read + |frag| <= |all| && all[read..][..|frag|] == frag && IsLine(frag)
    requires forall i :: 0 <= i < read ==> all[i] != LF
    ensures HasLine(all) && FirstLine(all) == all[..read + |frag|]
  {
    assert forall i :: 0 <= i < |frag| ==> all[read + i] == frag[i];
    IndexOfIs(all, LF, read + |frag| - 1);
  }

  lemma NoLine(all: seq<byte>, read: nat, frag: seq<byte>)
    requires read <= |all| && all[read..] == frag && LF !in frag && forall i :: 0 <= i < read ==> all[i] != LF
    ensures !HasLine(all)
  {
    IndexOfFirst(all, LF);
    assert forall i :: read <= i < |all| ==> all[i] == frag[i - read];
  }

  ghost predicate KeptSoFar(all: seq<byte>, read: nat, text: seq<byte>, cap: nat, mode: int)
    requires 0 < cap && read <= |all|
  {
    text == if mode < 0 then all[..read] else if mode == 0 then [] else all[..Least(read, Whole(mode, cap))]
  }

  /** The fragment that ends the line completes the result. */
  lemma LineRead(all: seq<byte>, read: nat, frag: seq<byte>, rest: seq<byte>, before: seq<byte>, text: seq<byte>,
                 cap: nat, mode: int)
    requires 0 < cap && read <= |all| && all[read..] == frag + rest && IsLine(frag) && |frag| <= cap && read % cap == 0
    requires (forall i :: 0 <= i < read ==> all[i] != LF) && KeptSoFar(all, read, before, cap, mode)
    requires text == if mode < 0 || (mode > 0 && |before| + |frag| <= mode) then before + frag else before
    ensures HasLine(all) && rest == all[|FirstLine(all)|..] && text == Kept(FirstLine(all), cap, mode)
    ensures mode > 0 ==> |text| <= mode
  {
    assert all[read..][..|frag|] == frag && all[read..read + |frag|] == frag;
    LineFound(all, read, frag);
    assert rest == all[read..][|frag|..] == all[read + |frag|..];
    if mode > 0 {
      WithinLimit(FirstLine(all), cap, mode);
      LimitedStep(all, read, frag, cap, mode);
    }
  }

  lemma FullFragment(read: nat, cap: nat, mode: nat)
    requires 0 < cap && read % cap == 0
    ensures read < Whole(mode, cap) ==> read + cap <= Whole(mode, cap)
    ensures Whole(mode, cap) + cap > mode
  {
    WholeIsMultiple(mode, cap);
    if read < Whole(mode, cap) { MultipleGap(read, Whole(mode, cap), cap); }
  }

  lemma LimitedStep(all: seq<byte>, read: nat, frag: seq<byte>, cap: nat, mode: nat)
    requires 0 < cap && read % cap == 0 && 0 < |frag| <= cap
    requires read + |frag| <= |all| && all[read..read + |frag|] == frag
    ensures var kept := all[..Least(read, Whole(mode, cap))];
      Limited(all[..read + |frag|], cap, mode) == if |kept| + |frag| <= mode then kept + frag else kept
  {
    WholeUnique(read + |frag| - 1, read, cap);
  }
}
