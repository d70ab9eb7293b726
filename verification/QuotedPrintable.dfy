/** The quoted-printable encoder of internal/sends/msg.go against the decoding rules of section 6.7 of RFC 2045. */
module QuotedPrintable {
  import opened Wrappers
  import opened LineReader

  const EQ: byte := 61
  const SP: byte := 32
  const TAB: byte := 9

  const CRLF: seq<byte> := [CR, LF]
  const SOFT: seq<byte> := [EQ, CR, LF]

  predicate IsBlank(c: byte) {
    c == SP || c == TAB
  }

  function Hex(d: nat): byte
    requires d < 16
  {
    if d < 10 then 48 + d else 55 + d
  }

  function Escape(c: byte): seq<byte> {
    [EQ, Hex(c / 16), Hex(c % 16)]
  }

  /** Rule 1: an escape is "=" and the two hexadecimal digits of the byte, in capital letters. */
  lemma EscapeLaw(c: byte)
    ensures var digits := "0123456789ABCDEF";
      |Escape(c)| == 3 && Escape(c)[0] == 61 &&
      Escape(c)[1] == digits[c / 16] as int && Escape(c)[2] == digits[c % 16] as int
  {
  }

  /** The text for byte `c` when `next` follows it in the input. */
  function Token(c: byte, next: seq<byte>): (t: seq<byte>)
    ensures 1 <= |t| <= 3
  {
    if c == EQ then Escape(c)
    else if IsBlank(c) then
      if next != [] && (next[0] == LF || next[0] == CR) then Escape(c) else [c]
    else if 33 <= c <= 126 then [c]
    else Escape(c)
  }

  /** The encoding of `input` when `col` characters already stand in the current output line. */
  function Encode(input: seq<byte>, col: nat): seq<byte> {
    if input == [] then []
    else if input[0] == CR then Encode(input[1..], col)
    else if input[0] == LF then CRLF + Encode(input[1..], 0)
    else
      var t := Token(input[0], input[1..]);
      if col + |t| > 76 && col > 0 then SOFT + t + Encode(input[1..], |t|)
      else t + Encode(input[1..], col + |t|)
  }

  method QpEncode(input: seq<byte>) returns (out: seq<byte>)
    ensures out == Encode(input, 0)
  {
    out := [];
    var col := 0;
    for i := 0 to |input|
      invariant 0 <= col && out + Encode(input[i..], col) == Encode(input, 0)
    {
      ghost var rest, before, c0 := input[i..], out, col;
      assert rest[0] == input[i] && rest[1..] == input[i + 1..];
      var c := input[i];
      if c != CR {
        if c == LF {
          out := out + CRLF;
          col := 0;
        } else {
          var t := Token(c, input[i + 1..]);
          if col + |t| > 76 && col > 0 {
            out := out + SOFT;
            col := 0;
          }
          out := out + t;
          col := col + |t|;
        }
      }
      assert out + Encode(rest[1..], col) == before + Encode(rest, c0);
    }
    assert input[|input|..] == [];
  }

  /** The text the encoder promises to transport: without carriage returns, line feeds as CRLF. */
  function Canonical(input: seq<byte>): seq<byte> {
    if input == [] then []
    else (if input[0] == CR then [] else if input[0] == LF then CRLF else [input[0]]) + Canonical(input[1..])
  }

  function Nibble(c: byte): Option<nat> {
    if 48 <= c <= 57 then Some(c - 48) else if 65 <= c <= 70 then Some(c - 55) else None
  }

  /** Only blanks up to the end of the line or of the text (rule 3: such blanks are transport padding). */
  predicate BlankTail(s: seq<byte>) {
    s == [] || CRLF <= s || (IsBlank(s[0]) && BlankTail(s[1..]))
  }

  function Prepend(front: seq<byte>, r: Option<seq<byte>>): Option<seq<byte>> {
    if r.Some? then Some(front + r.value) else None
  }

  /**
   The decoder: escapes (rule 1), literal characters (rule 2), trailing blanks deleted (rule 3), line ends kept
   (rule 4), soft line breaks removed (rule 5); anything else is malformed.
   */
  function Decode(s: seq<byte>): Option<seq<byte>> {
    if s == [] then Some([])
    else if CRLF <= s then Prepend(CRLF, Decode(s[2..]))
    else if IsBlank(s[0]) then
      if BlankTail(s) then Decode(s[1..]) else Prepend([s[0]], Decode(s[1..]))
    else if s[0] == EQ then
      if SOFT <= s then Decode(s[3..])
      else if |s| >= 3 && Nibble(s[1]).Some? && Nibble(s[2]).Some? then
        Prepend([Nibble(s[1]).value * 16 + Nibble(s[2]).value], Decode(s[3..]))
      else None
    else if 33 <= s[0] <= 126 then Prepend([s[0]], Decode(s[1..]))
    else None
  }

  lemma DecodeCRLF(s: seq<byte>)
    ensures Decode(CRLF + s) == Prepend(CRLF, Decode(s))
  {
    assert (CRLF + s)[2..] == s;
  }

  lemma DecodeSoft(s: seq<byte>)
    ensures Decode(SOFT + s) == Decode(s)
  {
    assert (SOFT + s)[3..] == s && (SOFT + s)[0] == EQ;
  }

  lemma DecodeEscape(c: byte, s: seq<byte>)
    ensures Decode(Escape(c) + s) == Prepend([c], Decode(s))
  {
    var t := Escape(c) + s;
    assert t[0] == EQ && t[1] == Hex(c / 16) && t[2] == Hex(c % 16) && t[3..] == s;
  }

  lemma DecodeLiteral(c: byte, s: seq<byte>)
    requires (33 <= c <= 126 && c != EQ) || (IsBlank(c) && !BlankTail(s))
    ensures Decode([c] + s) == Prepend([c], Decode(s))
  {
    var t := [c] + s;
    assert t[0] == c && t[1..] == s;
  }

  predicate EndsBlank(input: seq<byte>) {
    input != [] && IsBlank(input[|input| - 1])
  }

  /** Text that starts with an encodable byte and does not end in a blank is not read as padding. */
  lemma {:induction false} NotPadding(input: seq<byte>, col: nat)
    requires input != [] && input[0] != CR && input[0] != LF && !EndsBlank(input)
    ensures !BlankTail(Encode(input, col))
  {
    var t := Token(input[0], input[1..]);
    var rest := Encode(input[1..], if col + |t| > 76 && col > 0 then |t| else col + |t|);
    if col + |t| > 76 && col > 0 {
      assert Encode(input, col)[0] == EQ;
    } else if t == [input[0]] && IsBlank(input[0]) {
      assert input[1] != CR && input[1] != LF;
      NotPadding(input[1..], col + 1);
      assert Encode(input, col)[1..] == rest;
    }
  }

  /** One token decodes to its byte, behind a soft line break or not. */
  lemma DecodeToken(c: byte, next: seq<byte>, rest: seq<byte>)
    requires c != CR && c != LF
    requires IsBlank(c) && Token(c, next) == [c] ==> !BlankTail(rest)
    ensures Decode(Token(c, next) + rest) == Prepend([c], Decode(rest))
    ensures Decode(SOFT + Token(c, next) + rest) == Prepend([c], Decode(rest))
  {
    var t := Token(c, next);
    if t == Escape(c) { DecodeEscape(c, rest); } else { DecodeLiteral(c, rest); }
    DecodeSoft(t + rest);
    assert SOFT + t + rest == SOFT + (t + rest);
  }

  lemma {:induction false} RoundTripFrom(input: seq<byte>, col: nat)
    requires !EndsBlank(input)
    ensures Decode(Encode(input, col)) == Some(Canonical(input))
    decreases |input|
  {
    if input != [] {
      var c, next := input[0], input[1..];
      assert !EndsBlank(next);
      if c == CR {
        RoundTripFrom(next, col);
        assert Canonical(input) == Canonical(next);
      } else if c == LF {
        RoundTripFrom(next, 0);
        DecodeCRLF(Encode(next, 0));
      } else {
        var t := Token(c, next);
        var col' := if col + |t| > 76 && col > 0 then |t| else col + |t|;
        RoundTripFrom(next, col');
        if IsBlank(c) && t == [c] { NotPadding(next, col'); }
        DecodeToken(c, next, Encode(next, col'));
      }
    }
  }

  /** A blank in front of padding is padding too. */
  lemma DecodePadding(c: byte, rest: seq<byte>)
    requires IsBlank(c) && BlankTail(rest)
    ensures Decode([c] + rest) == Decode(rest) && Decode(SOFT + [c] + rest) == Decode(rest)
  {
    var s := [c] + rest;
    assert s[0] == c && s[1..] == rest && !(CRLF <= s);
    DecodeSoft(s);
    assert SOFT + [c] + rest == SOFT + s;
  }

  /** Blanks at the very end of the input stay literal and are deleted as padding. */
  lemma {:induction false} LosesBlanks(input: seq<byte>, col: nat)
    requires EndsBlank(input)
    ensures Decode(Encode(input, col)).Some? && |Decode(Encode(input, col)).value| < |Canonical(input)|
    decreases |input|
  {
    var c, next := input[0], input[1..];
    if next == [] {
      assert Token(c, next) == [c];
      DecodePadding(c, []);
    } else if c == CR {
      LosesBlanks(next, col);
    } else if c == LF {
      LosesBlanks(next, 0);
      DecodeCRLF(Encode(next, 0));
    } else {
      var t := Token(c, next);
      var col' := if col + |t| > 76 && col > 0 then |t| else col + |t|;
      var rest := Encode(next, col');
      LosesBlanks(next, col');
      if IsBlank(c) && t == [c] && BlankTail(rest) {
        DecodePadding(c, rest);
      } else {
        DecodeToken(c, next, rest);
      }
    }
  }

  /** Decoding gives the canonical text back exactly when the input does not end in a space or a tab. */
  lemma RoundTripIff(input: seq<byte>)
    ensures Decode(Encode(input, 0)) == Some(Canonical(input)) <==> !EndsBlank(input)
  {
    if EndsBlank(input) { LosesBlanks(input, 0); } else { RoundTripFrom(input, 0); }
  }

  /**
   Text that needs no encoding (rules 2, 3 and 5): printable ASCII but "=", blanks not at the end of a line, and no
   line of more than 76 characters when `col` of the first already stand.
   */
  predicate PlainText(input: seq<byte>, col: nat) {
    if input == [] then true
    else if input[0] == 13 then PlainText(input[1..], col)
    else if input[0] == 10 then PlainText(input[1..], 0)
    else
      && col < 76
      && ((33 <= input[0] <= 126 && input[0] != 61) ||
          ((input[0] == 32 || input[0] == 9) && (|input| == 1 || (input[1] != 13 && input[1] != 10))))
      && PlainText(input[1..], col + 1)
  }

  lemma {:induction false} EncodeGrows(input: seq<byte>, col: nat)
    requires col <= 76
    ensures |Encode(input, col)| >= |Canonical(input)|
    ensures |Encode(input, col)| == |Canonical(input)| <==> PlainText(input, col)
    ensures PlainText(input, col) ==> Encode(input, col) == Canonical(input)
    decreases |input|
  {
    if input != [] {
      var c, next := input[0], input[1..];
      if c == CR {
        EncodeGrows(next, col);
      } else if c == LF {
        EncodeGrows(next, 0);
      } else {
        var t := Token(c, next);
        EncodeGrows(next, if col + |t| > 76 && col > 0 then |t| else col + |t|);
      }
    }
  }

  /** Encoding leaves a text as it is, up to its line ends, exactly when it needs no encoding. */
  lemma PassesThroughIff(input: seq<byte>)
    ensures Encode(input, 0) == Canonical(input) <==> PlainText(input, 0)
  {
    EncodeGrows(input, 0);
  }

  /** The lines of an encoded text, without their line ends. */
  function Lines(s: seq<byte>): (r: seq<seq<byte>>)
    ensures r != []
  {
    if s == [] then [[]]
    else if CRLF <= s then [[]] + Lines(s[2..])
    else
      var r := Lines(s[1..]);
      [[s[0]] + r[0]] + r[1..]
  }

  lemma {:induction false} LinesOfToken(t: seq<byte>, rest: seq<byte>)
    requires CR !in t
    ensures Lines(t + rest) == [t + Lines(rest)[0]] + Lines(rest)[1..]
  {
    if t == [] {
      assert t + rest == rest && [] + Lines(rest)[0] == Lines(rest)[0];
    } else {
      LinesOfToken(t[1..], rest);
      assert (t + rest)[1..] == t[1..] + rest && (t + rest)[0] == t[0];
      assert [t[0]] + (t[1..] + Lines(rest)[0]) == t + Lines(rest)[0];
    }
  }

  lemma LinesOfBreak(rest: seq<byte>)
    ensures Lines(CRLF + rest) == [[]] + Lines(rest)
    ensures Lines(SOFT + rest) == [[EQ]] + Lines(rest)
  {
    assert (CRLF + rest)[2..] == rest;
    assert SOFT + rest == [EQ] + (CRLF + rest);
    LinesOfToken([EQ], CRLF + rest);
    assert [EQ] + [] == [EQ];
  }

  /** At most `room` characters, or one more if the line ends in the sign of a soft break. */
  predicate FitsIn(line: seq<byte>, room: nat) {
    |line| <= room || (|line| == room + 1 && line[|line| - 1] == EQ)
  }

  ghost predicate AllFit(lines: seq<seq<byte>>, room: nat) {
    lines != [] && FitsIn(lines[0], room) && forall i :: 0 < i < |lines| ==> FitsIn(lines[i], 76)
  }

  lemma TokenHasNoBreak(c: byte, next: seq<byte>)
    requires c != CR && c != LF
    ensures CR !in Token(c, next)
  {
  }

  /** A token in front of fitting lines. */
  lemma TokenFits(t: seq<byte>, lines: seq<seq<byte>>, room: nat)
    requires |t| <= room && AllFit(lines, room - |t|)
    ensures AllFit([t + lines[0]] + lines[1..], room)
  {
    var r := [t + lines[0]] + lines[1..];
    forall i | 0 < i < |r| ensures FitsIn(r[i], 76) {
      assert r[i] == lines[i];
    }
  }

  lemma BreakFits(line: seq<byte>, lines: seq<seq<byte>>, room: nat)
    requires AllFit(lines, 76) && FitsIn(line, room)
    ensures AllFit([line] + lines, room)
  {
    forall i | 0 < i < |[line] + lines| ensures FitsIn(([line] + lines)[i], 76) {
      assert ([line] + lines)[i] == lines[i - 1];
    }
  }

  /** A token behind a soft break. */
  lemma WrappedFits(t: seq<byte>, rest: seq<byte>, room: nat)
    requires CR !in t && |t| <= 76 && AllFit(Lines(rest), 76 - |t|)
    ensures AllFit(Lines(SOFT + t + rest), room)
  {
    assert AllFit(Lines(t + rest), 76) by {
      LinesOfToken(t, rest);
      TokenFits(t, Lines(rest), 76);
    }
    assert Lines(SOFT + t + rest) == [[EQ]] + Lines(t + rest) by {
      LinesOfBreak(t + rest);
      assert SOFT + t + rest == SOFT + (t + rest);
    }
    BreakFits([EQ], Lines(t + rest), room);
  }

  lemma {:induction false} EncodeFits(input: seq<byte>, col: nat)
    requires col <= 76
    ensures AllFit(Lines(Encode(input, col)), 76 - col)
    decreases |input|
  {
    if input != [] {
      var c, next := input[0], input[1..];
      if c == CR {
        EncodeFits(next, col);
      } else if c == LF {
        EncodeFits(next, 0);
        LinesOfBreak(Encode(next, 0));
        BreakFits([], Lines(Encode(next, 0)), 76 - col);
      } else {
        var t := Token(c, next);
        TokenHasNoBreak(c, next);
        var wrap := col + |t| > 76 && col > 0;
        EncodeFits(next, if wrap then |t| else col + |t|);
        if wrap {
          WrappedFits(t, Encode(next, |t|), 76 - col);
        } else {
          LinesOfToken(t, Encode(next, col + |t|));
          TokenFits(t, Lines(Encode(next, col + |t|)), 76 - col);
        }
      }
    }
  }

  /** No output line has more than 76 characters before its line end or the "=" of its soft break. */
  lemma LinesBounded(input: seq<byte>, line: seq<byte>)
    requires line in Lines(Encode(input, 0))
    ensures FitsIn(line, 76)
  {
    EncodeFits(input, 0);
  }

  /** Some byte has to be written when its output line already holds 76 characters. */
  predicate FullBreak(input: seq<byte>, col: nat) {
    if input == [] then false
    else if input[0] == CR then FullBreak(input[1..], col)
    else if input[0] == LF then FullBreak(input[1..], 0)
    else
      var t := Token(input[0], input[1..]);
      col == 76 || FullBreak(input[1..], if col + |t| > 76 && col > 0 then |t| else col + |t|)
  }

  /** Every line within 76 characters, and the first within `room`, counting the "=" of a soft break. */
  ghost predicate Short(lines: seq<seq<byte>>, room: int) {
    lines != [] && |lines[0]| <= room && forall i :: 0 < i < |lines| ==> |lines[i]| <= 76
  }

  lemma TokenShort(t: seq<byte>, lines: seq<seq<byte>>, room: int)
    requires lines != []
    ensures Short([t + lines[0]] + lines[1..], room) <==> Short(lines, room - |t|)
  {
    var r := [t + lines[0]] + lines[1..];
    assert |r| == |lines| && |r[0]| == |t| + |lines[0]| && forall i :: 0 < i < |r| ==> r[i] == lines[i];
  }

  lemma BreakShort(line: seq<byte>, lines: seq<seq<byte>>, room: int)
    requires lines != []
    ensures Short([line] + lines, room) <==> |line| <= room && Short(lines, 76)
  {
    var r := [line] + lines;
    assert r[0] == line && r[1] == lines[0] && forall i :: 0 <= i < |lines| ==> r[i + 1] == lines[i];
    if Short(r, room) {
      forall i | 0 < i < |lines| ensures |lines[i]| <= 76 { assert r[i + 1] == lines[i]; }
    }
  }

  /** A token behind a soft break: the break needs one character of room. */
  lemma WrappedShort(t: seq<byte>, rest: seq<byte>, room: int)
    requires CR !in t
    ensures Short(Lines(SOFT + t + rest), room) <==> 1 <= room && Short(Lines(rest), 76 - |t|)
  {
    LinesOfToken(t, rest);
    TokenShort(t, Lines(rest), 76);
    LinesOfBreak(t + rest);
    assert SOFT + t + rest == SOFT + (t + rest);
    BreakShort([EQ], Lines(t + rest), room);
  }

  lemma {:induction false} EncodeShort(input: seq<byte>, col: nat)
    requires col <= 76
    ensures Short(Lines(Encode(input, col)), 76 - col) <==> !FullBreak(input, col)
    decreases |input|
  {
    if input != [] {
      var c, next := input[0], input[1..];
      if c == CR {
        EncodeShort(next, col);
      } else if c == LF {
        EncodeShort(next, 0);
        LinesOfBreak(Encode(next, 0));
        BreakShort([], Lines(Encode(next, 0)), 76 - col);
      } else {
        var t := Token(c, next);
        TokenHasNoBreak(c, next);
        var wrap := col + |t| > 76 && col > 0;
        EncodeShort(next, if wrap then |t| else col + |t|);
        if wrap {
          WrappedShort(t, Encode(next, |t|), 76 - col);
        } else {
          LinesOfToken(t, Encode(next, col + |t|));
          TokenShort(t, Lines(Encode(next, col + |t|)), 76 - col);
        }
      }
    }
  }

  /**
   Rule 5 of section 6.7 of RFC 2045 allows 76 characters a line, the "=" of a soft break included. It is kept
   exactly when no line is filled up to 76 characters with another byte to follow in it.
   */
  lemma RuleFiveIff(input: seq<byte>)
    ensures (forall line :: line in Lines(Encode(input, 0)) ==> |line| <= 76) <==> !FullBreak(input, 0)
  {
    var lines := Lines(Encode(input, 0));
    EncodeShort(input, 0);
    if forall line :: line in lines ==> |line| <= 76 {
      assert lines[0] in lines;
      assert Short(lines, 76);
    }
  }

  /** A run of plain letters. */
  function Letters(n: nat): (s: seq<byte>)
    ensures |s| == n && forall i :: 0 <= i < n ==> s[i] == 97
  {
    if n == 0 then [] else [97] + Letters(n - 1)
  }

  lemma {:induction false} LettersFill(n: nat, col: nat)
    requires col <= 76 < col + n
    ensures Lines(Encode(Letters(n), col))[0] == Letters(76 - col) + [EQ]
    decreases n
  {
    var rest := Letters(n - 1);
    assert Letters(n)[0] == 97 && Letters(n)[1..] == rest && Token(97, rest) == [97];
    if col == 76 {
      LinesOfBreak([97] + Encode(rest, 1));
      assert SOFT + [97] + Encode(rest, 1) == SOFT + ([97] + Encode(rest, 1));
    } else {
      LettersFill(n - 1, col + 1);
      LinesOfToken([97], Encode(rest, col + 1));
      assert [97] + (Letters(75 - col) + [EQ]) == Letters(76 - col) + [EQ];
    }
  }

  /** Such an input: 77 letters give a line of 77 characters. */
  lemma LineOf77()
    ensures |Lines(Encode(Letters(77), 0))[0]| == 77 && FullBreak(Letters(77), 0)
  {
    LettersFill(77, 0);
    RuleFiveIff(Letters(77));
  }
}
