/** When normalising a message twice is the same as normalising it once. */
module Idempotence {
  import opened LineReader
  import opened DataTransfer

  ghost predicate EndsCR(line: seq<byte>) {
    line != [] && line[|line| - 1] == CR
  }

  ghost predicate NoLF(lines: seq<seq<byte>>) {
    forall i :: 0 <= i < |lines| ==> LF !in lines[i]
  }

  /** A line ended by LF has fewer than three carriage returns before it, an unended last line fewer than two. */
  ghost predicate FewCRs(data: seq<byte>) {
    var lines := SplitLF(data);
    && (forall i :: 0 <= i < |lines| - 1 ==> !EndsCR(Chomp(Chomp(lines[i]))))
    && !EndsCR(Chomp(lines[|lines| - 1]))
  }

  /** All lines but the last lose a carriage return. */
  function ChompFront(lines: seq<seq<byte>>): seq<seq<byte>> {
    seq(|lines|, i requires 0 <= i < |lines| => if i < |lines| - 1 then Chomp(lines[i]) else lines[i])
  }

  /** The lines of the normalised message. */
  function OutLines(data: seq<byte>): seq<seq<byte>> {
    ChompAll(DropEmptyLast(ChompFront(SplitLF(data))))
  }

  lemma SplitApart(line: seq<byte>, rest: seq<byte>)
    requires LF !in line
    ensures SplitLF(line + [LF] + rest) == [line] + SplitLF(rest)
  {
    var s := line + [LF] + rest;
    assert s[|line|] == LF;
    assert forall i :: 0 <= i < |line| ==> s[i] == line[i];
    IndexOfIs(s, LF, |line|);
    assert s[..|line|] == line && s[|line| + 1..] == rest;
  }

  lemma {:induction false} UnifyWithoutLF(s: seq<byte>)
    requires LF !in s
    ensures Unify(s) == s
  {
    if |s| >= 2 {
      assert s[1] in s;
      assert LF !in s[1..];
      UnifyWithoutLF(s[1..]);
    }
  }

  lemma ChompTail(line: seq<byte>)
    requires |line| >= 2
    ensures Chomp(line) == [line[0]] + Chomp(line[1..])
  {
    var n := |line| - 1;
    assert line[1..][n - 1] == line[n];
    if line[n] == CR {
      assert line[..n] == [line[0]] + line[1..][..n - 1];
    } else {
      assert line == [line[0]] + line[1..];
    }
  }

  lemma {:induction false} UnifyApart(line: seq<byte>, rest: seq<byte>)
    requires LF !in line
    ensures Unify(line + [LF] + rest) == Chomp(line) + [LF] + Unify(rest)
  {
    var s := line + [LF] + rest;
    if line == [] {
      assert s[1..] == rest;
      if rest == [] { assert s == [LF]; }
    } else if line == [CR] {
      assert s[0] == CR && s[1] == LF && s[2..] == rest;
    } else {
      assert s[0] == line[0] && s[1..] == line[1..] + [LF] + rest;
      UnifyApart(line[1..], rest);
      if |line| == 1 {
        assert Chomp(line) == line && s[0] != CR;
      } else {
        assert s[1] == line[1] && s[1] != LF;
        ChompTail(line);
      }
    }
  }

  lemma ChompFrontApart(line: seq<byte>, lines: seq<seq<byte>>)
    requires lines != []
    ensures ChompFront([line] + lines) == [Chomp(line)] + ChompFront(lines)
  {
  }

  lemma LineApart(data: seq<byte>, i: nat)
    requires i == IndexOf(data, LF) && i < |data|
    ensures data == data[..i] + [LF] + data[i + 1..] && LF !in data[..i] && LF !in Chomp(data[..i])
  {
    IndexOfFirst(data, LF);
    var line := data[..i];
    assert forall j :: 0 <= j < |line| ==> line[j] == data[j];
    assert LF !in line;
    assert Chomp(line) <= line;
  }

  /** Replacing CRLF by LF takes one carriage return from every ended line. */
  lemma {:induction false} SplitUnified(data: seq<byte>)
    ensures SplitLF(Unify(data)) == ChompFront(SplitLF(data)) && NoLF(SplitLF(data))
    decreases |data|
  {
    var i := IndexOf(data, LF);
    if i == |data| {
      IndexOfFirst(data, LF);
      UnifyWithoutLF(data);
    } else {
      var line, rest := data[..i], data[i + 1..];
      LineApart(data, i);
      UnifyApart(line, rest);
      SplitApart(Chomp(line), Unify(rest));
      SplitUnified(rest);
      ChompFrontApart(line, SplitLF(rest));
    }
  }

  lemma NormalizeByLines(data: seq<byte>)
    ensures Normalize(data) == Render(OutLines(data)) && NoLF(OutLines(data))
  {
    SplitUnified(data);
  }

  function WithCR(lines: seq<seq<byte>>): seq<seq<byte>> {
    seq(|lines|, i requires 0 <= i < |lines| => lines[i] + [CR])
  }

  lemma {:induction false} SplitRelayed(lines: seq<seq<byte>>)
    requires NoLF(lines)
    ensures SplitLF(Relayed(lines)) == WithCR(lines) + [[]]
  {
    if lines != [] {
      var rest := Relayed(lines[1..]);
      assert Relayed(lines) == (lines[0] + [CR]) + [LF] + rest;
      SplitApart(lines[0] + [CR], rest);
      SplitRelayed(lines[1..]);
      assert WithCR(lines) == [lines[0] + [CR]] + WithCR(lines[1..]);
    }
  }

  /** Normalising what was already normalised only takes one more carriage return from each line. */
  lemma NormalizeRendered(lines: seq<seq<byte>>)
    requires NoLF(lines)
    ensures Normalize(Render(lines)) == Render(ChompAll(lines))
  {
    if lines == [] {
      EmptyRendered();
      NormalizeRelayed([[]]);
      assert ChompAll([[]]) == [[]] && ChompAll(lines) == [];
    } else {
      NormalizeRelayed(lines);
    }
  }

  lemma EmptyRendered()
    ensures Render([]) == Relayed([[]]) == Render([[]])
  {
    assert Relayed([[]]) == [] + CRLF + Relayed([]);
  }

  lemma NormalizeRelayed(lines: seq<seq<byte>>)
    requires NoLF(lines) && lines != []
    ensures Normalize(Relayed(lines)) == Render(ChompAll(lines))
  {
    var data := Relayed(lines);
    assert OutLines(data) == ChompAll(lines) by {
      SplitRelayed(lines);
      WithoutCR(lines);
    }
    NormalizeByLines(data);
  }

  lemma WithoutCR(lines: seq<seq<byte>>)
    ensures ChompFront(WithCR(lines) + [[]]) == lines + [[]] && DropEmptyLast(lines + [[]]) == lines
  {
    var ls := WithCR(lines) + [[]];
    assert forall i :: 0 <= i < |lines| ==> ls[i] == lines[i] + [CR] && Chomp(ls[i]) == lines[i];
  }

  lemma {:induction false} ChompShrinks(lines: seq<seq<byte>>)
    ensures |Relayed(ChompAll(lines))| <= |Relayed(lines)|
    ensures |Relayed(ChompAll(lines))| == |Relayed(lines)| ==> forall i :: 0 <= i < |lines| ==> !EndsCR(lines[i])
  {
    if lines != [] {
      ChompShrinks(lines[1..]);
      assert ChompAll(lines)[1..] == ChompAll(lines[1..]);
      assert Relayed(ChompAll(lines)) == Chomp(lines[0]) + CRLF + Relayed(ChompAll(lines[1..]));
      assert forall i :: 0 < i < |lines| ==> lines[i] == lines[1..][i - 1];
    }
  }

  lemma OutLinesEnd(data: seq<byte>)
    ensures (forall i :: 0 <= i < |OutLines(data)| ==> !EndsCR(OutLines(data)[i])) <==> FewCRs(data)
  {
    var lines := SplitLF(data);
    var n := |lines| - 1;
    var front := ChompFront(lines);
    var out := OutLines(data);
    assert forall i :: 0 <= i < n ==> out[i] == Chomp(Chomp(lines[i]));
    if lines[n] == [] {
      assert |out| == n && !EndsCR(Chomp(lines[n]));
    } else {
      assert |out| == n + 1 && out[n] == Chomp(lines[n]);
    }
  }

  /** Normalisation is idempotent on a message exactly when no line of it carries too many carriage returns. */
  lemma NormalizeIdempotentIff(data: seq<byte>)
    ensures Normalize(Normalize(data)) == Normalize(data) <==> FewCRs(data)
  {
    var out := OutLines(data);
    NormalizeByLines(data);
    NormalizeRendered(out);
    OutLinesEnd(data);
    ChompShrinks(out);
    if FewCRs(data) {
      assert ChompAll(out) == out;
    }
  }

  /** For instance a line that ends in three carriage returns and a line feed. */
  lemma StrayCRs(data: seq<byte>)
    requires data == [CR, CR, CR, LF]
    ensures Normalize(Normalize(data)) != Normalize(data)
  {
    IndexOfIs(data, LF, 3);
    assert data[..3] == [CR, CR, CR] && data[4..] == [];
    assert SplitLF(data)[0] == [CR, CR, CR];
    assert Chomp(Chomp(SplitLF(data)[0])) == [CR];
    NormalizeIdempotentIff(data);
  }
}
