/** Python's `str.split()`, `str.strip()` emptiness and `" ".join`. */
module PyText {
  import opened Prelude

  /** The characters `str.isspace` accepts. */
  predicate IsSpace(c: char) {
    var u := c as int;
    9 <= u <= 13 || 0x1C <= u <= 0x20 || u == 0x85 || u == 0xA0 || u == 0x1680 || 0x2000 <= u <= 0x200A
    || u == 0x2028 || u == 0x2029 || u == 0x202F || u == 0x205F || u == 0x3000
  }

  function StripLeft(s: string): string {
    if s != "" && IsSpace(s[0]) then StripLeft(s[1..]) else s
  }

  function StripRight(s: string): string {
    if s != "" && IsSpace(s[|s| - 1]) then StripRight(s[..|s| - 1]) else s
  }

  /** `s.strip()`. */
  function Strip(s: string): string {
    StripRight(StripLeft(s))
  }

  /** `not s.strip()`. */
  predicate Blank(s: string) {
    forall i :: 0 <= i < |s| ==> IsSpace(s[i])
  }

  predicate IsWord(w: string) {
    w != "" && forall i :: 0 <= i < |w| ==> !IsSpace(w[i])
  }

  /** The longest prefix without white space. */
  function WordLength(s: string): (n: nat)
    ensures n <= |s|
    ensures forall i :: 0 <= i < n ==> !IsSpace(s[i])
    ensures n < |s| ==> IsSpace(s[n])
  {
    if s == "" || IsSpace(s[0]) then 0 else 1 + WordLength(s[1..])
  }

  /** `s.split()`. */
  function Words(s: string): (ws: seq<string>)
    ensures forall i :: 0 <= i < |ws| ==> IsWord(ws[i])
    decreases |s|
  {
    if s == "" then []
    else if IsSpace(s[0]) then Words(s[1..])
    else
      var n := WordLength(s);
      [s[..n]] + Words(s[n..])
  }

  lemma BlankTail(s: string)
    requires s != "" && IsSpace(s[0])
    ensures Blank(s) <==> Blank(s[1..])
  {
    if Blank(s[1..]) {
      forall i | 0 <= i < |s|
        ensures IsSpace(s[i])
      {
        assert i > 0 ==> s[i] == s[1..][i - 1];
      }
    }
  }

  lemma {:induction false} StripLeftBlank(s: string)
    ensures Blank(StripLeft(s)) <==> Blank(s)
  {
    if s != "" && IsSpace(s[0]) {
      StripLeftBlank(s[1..]);
      BlankTail(s);
    }
  }

  lemma {:induction false} StripRightBlank(s: string)
    ensures Blank(StripRight(s)) <==> Blank(s)
  {
    if s != "" && IsSpace(s[|s| - 1]) {
      StripRightBlank(s[..|s| - 1]);
    }
  }

  lemma {:induction false} WordsEmptyIff(s: string)
    ensures Words(s) == [] <==> Blank(s)
    decreases |s|
  {
    if s != "" && IsSpace(s[0]) {
      WordsEmptyIff(s[1..]);
      BlankTail(s);
    }
  }

  /** `" ".join(ws)`. */
  function Join(ws: seq<string>): string {
    if ws == [] then ""
    else if |ws| == 1 then ws[0]
    else ws[0] + " " + Join(ws[1..])
  }

  lemma WordThenSpace(w: string, rest: string)
    requires IsWord(w)
    ensures Words(w + " " + rest) == [w] + Words(rest)
  {
    var s := w + " " + rest;
    assert s[0] == w[0];
    var n := WordLength(s);
    assert s[|w|] == ' ';
    assert forall i :: 0 <= i < |w| ==> s[i] == w[i];
    assert n == |w|;
    assert s[..n] == w;
    assert s[n..][0] == ' ' && s[n..][1..] == rest;
  }

  lemma WordAlone(w: string)
    requires IsWord(w)
    ensures Words(w) == [w]
  {
    var n := WordLength(w);
    assert n == |w|;
    assert w[..n] == w && w[n..] == "";
  }
}
