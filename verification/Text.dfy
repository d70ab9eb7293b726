/** The string helpers the relay relies on, over ASCII letters and ASCII white space. */
module Text {

  predicate IsSpace(c: char) {
    c == ' ' || c == '\t' || c == '\n' || c == '\r' || c == '\U{0B}' || c == '\U{0C}'
  }

  function LowerChar(c: char): char {
    if 'A' <= c <= 'Z' then (c as int + 32) as char else c
  }

  function ToLower(s: string): string {
    seq(|s|, i requires 0 <= i < |s| => LowerChar(s[i]))
  }

  function TrimLeft(s: string): string {
    if s != [] && IsSpace(s[0]) then TrimLeft(s[1..]) else s
  }

  function TrimRight(s: string): string {
    if s != [] && IsSpace(s[|s| - 1]) then TrimRight(s[..|s| - 1]) else s
  }

  function TrimSpace(s: string): string {
    TrimRight(TrimLeft(s))
  }

  /** The form in which e-mail addresses and domains are stored and compared. */
  function Canon(s: string): string {
    ToLower(TrimSpace(s))
  }

  function LastIndexOf(s: string, c: char): (r: int)
    ensures -1 <= r < |s|
    ensures 0 <= r ==> s[r] == c
    ensures forall i :: r < i < |s| ==> s[i] != c
  {
    if s == [] then -1
    else if s[|s| - 1] == c then |s| - 1
    else LastIndexOf(s[..|s| - 1], c)
  }

  predicate Trimmed(s: string) {
    s == [] || (!IsSpace(s[0]) && !IsSpace(s[|s| - 1]))
  }

  lemma {:induction false} TrimRightKeepsFront(s: string)
    ensures TrimRight(s) <= s
    ensures TrimRight(s) == [] || !IsSpace(TrimRight(s)[|TrimRight(s)| - 1])
  {
    if s != [] && IsSpace(s[|s| - 1]) {
      TrimRightKeepsFront(s[..|s| - 1]);
    }
  }

  lemma {:induction false} TrimLeftFront(s: string)
    ensures TrimLeft(s) == [] || !IsSpace(TrimLeft(s)[0])
  {
    if s != [] && IsSpace(s[0]) {
      TrimLeftFront(s[1..]);
    }
  }

  lemma TrimSpaceTrims(s: string)
    ensures Trimmed(TrimSpace(s))
  {
    TrimLeftFront(s);
    TrimRightKeepsFront(TrimLeft(s));
  }

  /** Normalising twice is normalising once, so addresses may be re-normalised at every layer. */
  lemma CanonIdempotent(s: string)
    ensures Canon(Canon(s)) == Canon(s)
  {
    TrimSpaceTrims(s);
    var t := Canon(s);
    assert Trimmed(t);
    assert TrimSpace(t) == t;
    assert ToLower(t) == t;
  }

  // ---- What these helpers mean ----

  /** The 26 capital letters become the small ones, and nothing else changes. */
  lemma LowerLaw(s: string, i: nat)
    requires i < |s|
    ensures |ToLower(s)| == |s|
    ensures var c, l := s[i] as int, ToLower(s)[i] as int;
      if 65 <= c <= 90 then 97 <= l <= 122 && l - 97 == c - 65 else l == c
  {
  }

  lemma LowerConcat(a: string, b: string)
    ensures ToLower(a + b) == ToLower(a) + ToLower(b)
  {
  }

  /** One of the six ASCII white-space characters. */
  predicate White(c: char) {
    c in " \t\n\r\U{0B}\U{0C}"
  }

  predicate AllWhite(s: string) {
    forall i :: 0 <= i < |s| ==> White(s[i])
  }

  /** Trimming takes away exactly the white space around a text that neither starts nor ends with it. */
  lemma TrimLaw(before: string, s: string, behind: string)
    requires AllWhite(before) && AllWhite(behind) && (s != [] ==> !White(s[0]) && !White(s[|s| - 1]))
    ensures TrimSpace(before + s + behind) == s
  {
    TrimLeftOf(before, s + behind);
    assert before + s + behind == before + (s + behind);
    if s == [] {
      TrimLeftOf(before + behind, []);
      assert before + s + behind == before + behind + [];
    } else {
      assert !IsSpace(s[0]) && !IsSpace(s[|s| - 1]);
      assert TrimLeft(s + behind) == s + behind;
      TrimRightOf(s, behind);
    }
  }

  lemma {:induction false} TrimLeftOf(before: string, s: string)
    requires AllWhite(before)
    ensures TrimLeft(before + s) == TrimLeft(s)
  {
    if before == [] {
      assert before + s == s;
    } else {
      assert (before + s)[0] == before[0] && (before + s)[1..] == before[1..] + s;
      TrimLeftOf(before[1..], s);
    }
  }

  lemma {:induction false} TrimRightOf(s: string, behind: string)
    requires AllWhite(behind) && (s == [] || !IsSpace(s[|s| - 1]))
    ensures TrimRight(s + behind) == s
  {
    if behind == [] {
      assert s + behind == s;
    } else {
      var t, n := s + behind, |behind| - 1;
      assert t[|t| - 1] == behind[n] && t[..|t| - 1] == s + behind[..n];
      TrimRightOf(s, behind[..n]);
    }
  }

  /** The last occurrence splits a text in front of a part without the character. */
  lemma {:induction false} LastIndexLaw(front: string, c: char, back: string)
    requires c !in back
    ensures LastIndexOf(front + [c] + back, c) == |front|
    decreases |back|
  {
    var s, n := front + [c] + back, |front| + |back|;
    if back == [] {
      assert s[n] == c;
    } else {
      var last := |back| - 1;
      assert s[n] == back[last] && s[..n] == front + [c] + back[..last];
      LastIndexLaw(front, c, back[..last]);
    }
  }
}
