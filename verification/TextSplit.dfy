/** JavaScript's `split` on a fixed separator, and `trim`. */
module TextSplit {
  import opened Prelude

  predicate MatchAt(s: string, sep: string, i: nat) {
    i + |sep| <= |s| && s[i..i + |sep|] == sep
  }

  function IndexOf(s: string, sep: string, from: nat): (r: Option<nat>)
    requires sep != ""
    ensures r.Some? ==> from <= r.value && MatchAt(s, sep, r.value)
    ensures r.Some? ==> forall j :: from <= j < r.value ==> !MatchAt(s, sep, j)
    ensures r.None? ==> forall j :: from <= j ==> !MatchAt(s, sep, j)
    decreases |s| - from
  {
    if from + |sep| > |s| then None
    else if s[from..from + |sep|] == sep then Some(from)
    else IndexOf(s, sep, from + 1)
  }

  function Split(s: string, sep: string): (r: seq<string>)
    requires sep != ""
    ensures r != []
  {
    match IndexOf(s, sep, 0)
    case None => [s]
    case Some(i) => [s[..i]] + Split(s[i + |sep|..], sep)
  }

  function Init<T>(s: seq<T>): seq<T>
    requires s != []
  {
    s[..|s| - 1]
  }

  function Last<T>(s: seq<T>): T
    requires s != []
  {
    s[|s| - 1]
  }

  lemma IndexIsFirst(s: string, sep: string, i: nat)
    requires sep != "" && MatchAt(s, sep, i)
    requires forall j :: 0 <= j < i ==> !MatchAt(s, sep, j)
    ensures IndexOf(s, sep, 0) == Some(i)
  {
  }

  /** The first match decides the first piece. */
  lemma SplitAtFirst(s: string, sep: string, i: nat)
    requires sep != "" && MatchAt(s, sep, i)
    requires forall j :: 0 <= j < i ==> !MatchAt(s, sep, j)
    ensures Split(s, sep) == [s[..i]] + Split(s[i + |sep|..], sep)
  {
    IndexIsFirst(s, sep, i);
  }

  lemma SplitNoMatch(s: string, sep: string)
    requires sep != ""
    requires forall j: nat :: !MatchAt(s, sep, j)
    ensures Split(s, sep) == [s]
  {
  }

  lemma InitLastCons<T>(a: T, r: seq<T>)
    requires r != []
    ensures Init([a] + r) == [a] + Init(r) && Last([a] + r) == Last(r)
  {
  }

  /** A first match in x is the first match in x + y: an earlier one would overlap it from the left. */
  lemma FirstMatchStays(x: string, y: string, sep: string, i: nat)
    requires sep != "" && MatchAt(x, sep, i)
    requires forall j :: 0 <= j < i ==> !MatchAt(x, sep, j)
    ensures MatchAt(x + y, sep, i)
    ensures forall j :: 0 <= j < i ==> !MatchAt(x + y, sep, j)
  {
    assert (x + y)[i..i + |sep|] == x[i..i + |sep|];
    forall j | 0 <= j < i
      ensures !MatchAt(x + y, sep, j)
    {
      assert !MatchAt(x, sep, j);
      assert (x + y)[j..j + |sep|] == x[j..j + |sep|];
    }
  }

  /** Splitting a text that arrives in two parts: everything but the last piece of the
      first part is already final, and the last piece is carried over. */
  lemma {:induction false} SplitAppend(x: string, y: string, sep: string)
    requires sep != ""
    ensures Split(x + y, sep) == Init(Split(x, sep)) + Split(Last(Split(x, sep)) + y, sep)
    decreases |x|
  {
    var found := IndexOf(x, sep, 0);
    if found.None? {
      SplitNoMatch(x, sep);
      assert Init([x]) == [];
    } else {
      var i := found.value;
      var head, rest := x[..i], x[i + |sep|..];
      SplitAtFirst(x, sep, i);
      FirstMatchStays(x, y, sep, i);
      SplitAtFirst(x + y, sep, i);
      assert (x + y)[..i] == head;
      assert (x + y)[i + |sep|..] == rest + y;
      SplitAppend(rest, y, sep);
      InitLastCons(head, Split(rest, sep));
      Assoc([head], Init(Split(rest, sep)), Split(Last(Split(rest, sep)) + y, sep));
    }
  }

  /** ECMAScript white space and line terminators, as removed by `trim`. */
  predicate IsJsSpace(c: char) {
    var u := c as int;
    9 <= u <= 13 || u == 0x20 || u == 0xA0 || u == 0x1680 || 0x2000 <= u <= 0x200A
    || u == 0x2028 || u == 0x2029 || u == 0x202F || u == 0x205F || u == 0x3000 || u == 0xFEFF
  }

  function TrimStart(s: string): string {
    if s != "" && IsJsSpace(s[0]) then TrimStart(s[1..]) else s
  }

  function TrimEnd(s: string): string {
    if s != "" && IsJsSpace(s[|s| - 1]) then TrimEnd(s[..|s| - 1]) else s
  }

  function Trim(s: string): string {
    TrimEnd(TrimStart(s))
  }

  predicate Trimmed(s: string) {
    s != "" && !IsJsSpace(s[0]) && !IsJsSpace(s[|s| - 1])
  }

  lemma TrimLeadingSpace(s: string)
    requires Trimmed(s)
    ensures Trim(" " + s) == s
  {
    var t := " " + s;
    assert t[0] == ' ' && IsJsSpace(t[0]);
    assert t[1..] == s;
    assert TrimStart(t) == TrimStart(s) == s;
  }
}
