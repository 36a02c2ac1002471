/** `strip_prompt_echo` (rag/injection_guard.py): runs of words copied from a prompt are replaced by
    a marker in the model's answer. */
module EchoFilter {
  import opened Prelude
  import opened PyText

  const MARK := "[حذف شد]"
  /** The two words the marker is made of when the text is split again. */
  const MARK_OPEN := "[حذف"
  const MARK_CLOSE := "شد]"

  // ---------------------------------------------------------------- specification

  /** w is one of the length-n windows of a reference. */
  ghost predicate IsReferenceWindow(w: seq<string>, refs: seq<string>, n: nat) {
    exists r, i :: 0 <= r < |refs| && 0 <= i && IsWindow(w, Words(refs[r]), i, n)
  }

  predicate IsWindow(w: seq<string>, words: seq<string>, i: int, n: nat) {
    0 <= i && i + n <= |words| && words[i..i + n] == w
  }

  ghost predicate Echoes(words: seq<string>, i: int, refs: seq<string>, n: nat) {
    0 <= i && i + n <= |words| && IsReferenceWindow(words[i..i + n], refs, n)
  }

  /** Word j lies in a window of the text that is also a window of a reference. */
  ghost predicate Marked(words: seq<string>, j: int, refs: seq<string>, n: nat) {
    exists i {:trigger Echoes(words, i, refs, n)} :: i <= j < i + n && Echoes(words, i, refs, n)
  }

  ghost function Flags(words: seq<string>, refs: seq<string>, n: nat): (f: seq<bool>)
    ensures |f| == |words| && forall j :: 0 <= j < |words| ==> (f[j] <==> Marked(words, j, refs, n))
  {
    seq(|words|, j => Marked(words, j, refs, n))
  }

  /** Each maximal run of flagged words becomes one marker; `inRun` says that a run is already open. */
  function Collapse(words: seq<string>, flags: seq<bool>, inRun: bool): seq<string>
    requires |words| == |flags|
  {
    if words == [] then []
    else if flags[0] then (if inRun then [] else [MARK]) + Collapse(words[1..], flags[1..], true)
    else [words[0]] + Collapse(words[1..], flags[1..], false)
  }

  ghost function Stripped(text: string, refs: seq<string>, n: nat): (string, bool) {
    var words := Words(text);
    var flags := Flags(words, refs, n);
    if true in flags then (Join(Collapse(words, flags, false)), true) else (text, false)
  }

  // ---------------------------------------------------------------- the program

  method CollectWindows(toks: seq<string>, n: nat, seen: set<seq<string>>) returns (windows: set<seq<string>>)
    ensures forall w :: w in windows <==> w in seen || exists i :: 0 <= i && IsWindow(w, toks, i, n)
  {
    windows := seen;
    if n > |toks| {
      return;
    }
    for i := 0 to |toks| - n + 1
      invariant forall w :: w in windows <==> w in seen || exists k :: 0 <= k < i && IsWindow(w, toks, k, n)
    {
      ghost var before := windows;
      var w := toks[i..i + n];
      windows := windows + {w};
      assert IsWindow(w, toks, i, n);
      forall v
        ensures v in windows <==> v in seen || exists k :: 0 <= k < i + 1 && IsWindow(v, toks, k, n)
      {
        assert v in windows <==> v in before || IsWindow(v, toks, i, n);
      }
    }
  }

  method ReferenceWindows(refs: seq<string>, n: nat) returns (windows: set<seq<string>>)
    ensures forall w :: w in windows <==> IsReferenceWindow(w, refs, n)
  {
    windows := {};
    for r := 0 to |refs|
      invariant forall w :: w in windows <==> IsReferenceWindow(w, refs[..r], n)
    {
      ghost var before := windows;
      windows := CollectWindows(Words(refs[r]), n, windows);
      forall w
        ensures w in windows <==> IsReferenceWindow(w, refs[..r + 1], n)
      {
        OneMoreReference(w, refs, r, n);
        assert w in before <==> IsReferenceWindow(w, refs[..r], n);
      }
    }
    assert refs[..|refs|] == refs;
  }

  lemma OneMoreReference(w: seq<string>, refs: seq<string>, r: nat, n: nat)
    requires r < |refs|
    ensures IsReferenceWindow(w, refs[..r + 1], n)
      <==> IsReferenceWindow(w, refs[..r], n) || exists i :: 0 <= i && IsWindow(w, Words(refs[r]), i, n)
  {
    var a, b := refs[..r], refs[..r + 1];
    assert b[r] == refs[r] && forall k :: 0 <= k < r ==> a[k] == b[k];
    if IsReferenceWindow(w, a, n) {
      var k, i :| 0 <= k < |a| && 0 <= i && IsWindow(w, Words(a[k]), i, n);
      assert IsWindow(w, Words(b[k]), i, n);
    }
    if i :| 0 <= i && IsWindow(w, Words(refs[r]), i, n) {
      assert IsWindow(w, Words(b[r]), i, n);
    }
    if IsReferenceWindow(w, b, n) {
      var k, i :| 0 <= k < |b| && 0 <= i && IsWindow(w, Words(b[k]), i, n);
      if k < r {
        assert IsWindow(w, Words(a[k]), i, n);
      }
    }
  }

  method SetFlags(words: seq<string>, refs: seq<string>, n: nat, windows: set<seq<string>>, flagged: array<bool>)
    requires n <= |words| && flagged.Length == |words|
    requires forall j :: 0 <= j < |words| ==> !flagged[j]
    requires forall w :: w in windows <==> IsReferenceWindow(w, refs, n)
    modifies flagged
    ensures flagged[..] == Flags(words, refs, n)
  {
    for i := 0 to |words| - n + 1
      invariant forall j :: 0 <= j < |words| ==>
        (flagged[j] <==> exists k {:trigger Echoes(words, k, refs, n)} :: k < i && k <= j < k + n && Echoes(words, k, refs, n))
    {
      ghost var before := flagged[..];
      if words[i..i + n] in windows {
        assert Echoes(words, i, refs, n);
        for j := i to i + n
          invariant forall k :: 0 <= k < |words| ==> (flagged[k] <==> before[k] || i <= k < j)
        {
          flagged[j] := true;
        }
      } else {
        assert !Echoes(words, i, refs, n);
      }
    }
  }

  method StripPromptEcho(text: string, refs: seq<string>, minRun: nat) returns (result: string, changed: bool)
    ensures (result, changed) == Stripped(text, refs, minRun)
  {
    ghost var spec := Flags(Words(text), refs, minRun);
    if text == "" || refs == [] {
      return text, false;
    }
    var words := Words(text);
    if |words| < minRun {
      return text, false;
    }
    var windows := ReferenceWindows(refs, minRun);
    if windows == {} {
      forall j | 0 <= j < |words|
        ensures !spec[j]
      {
        NoWindowNoMark(words, j, refs, minRun, windows);
      }
      return text, false;
    }
    var flagged := new bool[|words|](_ => false);
    SetFlags(words, refs, minRun, windows, flagged);
    assert flagged[..] == spec;
    var any := AnyFlag(flagged);
    if !any {
      return text, false;
    }
    var out := CollapseRuns(words, flagged);
    return Join(out), true;
  }

  lemma NoWindowNoMark(words: seq<string>, j: int, refs: seq<string>, n: nat, windows: set<seq<string>>)
    requires forall w :: w in windows <==> IsReferenceWindow(w, refs, n)
    requires windows == {}
    ensures !Marked(words, j, refs, n)
  {
  }

  method AnyFlag(flagged: array<bool>) returns (any: bool)
    ensures any <==> true in flagged[..]
  {
    for i := 0 to flagged.Length
      invariant forall k :: 0 <= k < i ==> !flagged[k]
    {
      if flagged[i] {
        assert flagged[..][i];
        return true;
      }
    }
    return false;
  }

  /** The loop that builds `out`. */
  method CollapseRuns(words: seq<string>, flagged: array<bool>) returns (out: seq<string>)
    requires flagged.Length == |words|
    requires forall k :: 0 <= k < |words| ==> IsWord(words[k])
    ensures out == Collapse(words, flagged[..], false)
  {
    hide Collapse;
    ghost var flags := flagged[..];
    out := [];
    var i := 0;
    assert words[0..] == words && flags[0..] == flags && [] + Collapse(words, flags, false) == Collapse(words, flags, false);
    while i < |words|
      invariant 0 <= i <= |words|
      invariant out + Collapse(words[i..], flags[i..], false) == Collapse(words, flags, false)
      invariant i < |words| && flagged[i] ==> out == [] || out[|out| - 1] != MARK
    {
      if flagged[i] {
        var j := i;
        while j < |words| && flagged[j]
          invariant i <= j <= |words|
          invariant RunFrom(words, flags, i, j)
        {
          CollapseStep(words, flags, j, j > i);
          j := j + 1;
        }
        MarkRun(out, words, flags, i, j);
        if |out| == 0 || out[|out| - 1] != MARK {
          out := out + [MARK];
        }
        i := j;
      } else {
        KeepWord(out, words, flags, i);
        MarkIsNoWord(words[i]);
        out := out + [words[i]];
        i := i + 1;
      }
    }
    CollapseNone(words, flags);
    assert out + [] == out;
  }

  /** From i the words up to j are one run, standing for one marker. */
  ghost predicate RunFrom(words: seq<string>, flags: seq<bool>, i: nat, j: nat)
    requires |words| == |flags| && i <= |words| && j <= |words|
  {
    j > i ==> Collapse(words[i..], flags[i..], false) == [MARK] + Collapse(words[j..], flags[j..], true)
  }

  lemma CollapseStep(words: seq<string>, flags: seq<bool>, j: nat, inRun: bool)
    requires |words| == |flags| && j < |words|
    ensures Collapse(words[j..], flags[j..], inRun)
      == (if flags[j] then (if inRun then [] else [MARK]) + Collapse(words[j + 1..], flags[j + 1..], true)
          else [words[j]] + Collapse(words[j + 1..], flags[j + 1..], false))
  {
    assert words[j..][0] == words[j] && words[j..][1..] == words[j + 1..];
    assert flags[j..][0] == flags[j] && flags[j..][1..] == flags[j + 1..];
  }

  lemma RunEnds(words: seq<string>, flags: seq<bool>, j: nat)
    requires |words| == |flags| && j <= |words| && (j < |words| ==> !flags[j])
    ensures Collapse(words[j..], flags[j..], true) == Collapse(words[j..], flags[j..], false)
  {
  }

  lemma CollapseNone(words: seq<string>, flags: seq<bool>)
    requires |words| == |flags|
    ensures Collapse(words[|words|..], flags[|words|..], false) == []
  {
  }

  lemma MarkRun(out: seq<string>, words: seq<string>, flags: seq<bool>, i: nat, j: nat)
    requires |words| == |flags| && i < j <= |words| && (j < |words| ==> !flags[j]) && RunFrom(words, flags, i, j)
    ensures (out + [MARK]) + Collapse(words[j..], flags[j..], false) == out + Collapse(words[i..], flags[i..], false)
  {
    RunEnds(words, flags, j);
    Assoc(out, [MARK], Collapse(words[j..], flags[j..], false));
  }

  lemma KeepWord(out: seq<string>, words: seq<string>, flags: seq<bool>, i: nat)
    requires |words| == |flags| && i < |words| && !flags[i]
    ensures (out + [words[i]]) + Collapse(words[i + 1..], flags[i + 1..], false) == out + Collapse(words[i..], flags[i..], false)
  {
    CollapseStep(words, flags, i, false);
    Assoc(out, [words[i]], Collapse(words[i + 1..], flags[i + 1..], false));
  }

  lemma MarkIsNoWord(w: string)
    requires IsWord(w)
    ensures w != MARK
  {
    assert MARK[4] == ' ';
  }

  // ---------------------------------------------------------------- what the output is

  function Unflagged(words: seq<string>, flags: seq<bool>): seq<string>
    requires |words| == |flags|
  {
    if words == [] then []
    else (if flags[0] then [] else [words[0]]) + Unflagged(words[1..], flags[1..])
  }

  /** The number of maximal runs of flagged words. */
  function Runs(flags: seq<bool>, inRun: bool): nat {
    if flags == [] then 0
    else (if flags[0] && !inRun then 1 else 0) + Runs(flags[1..], flags[0])
  }

  function CountMarks(out: seq<string>): nat {
    if out == [] then 0 else (if out[0] == MARK then 1 else 0) + CountMarks(out[1..])
  }

  /** Unflagged words stay, in order; each maximal run leaves exactly one marker. */
  lemma {:induction false} CollapseShape(words: seq<string>, flags: seq<bool>, inRun: bool)
    requires |words| == |flags| && forall k :: 0 <= k < |words| ==> IsWord(words[k])
    ensures var out := Collapse(words, flags, inRun);
      Filter(out, (w: string) => w != MARK) == Unflagged(words, flags)
      && CountMarks(out) == Runs(flags, inRun)
  {
    if words != [] {
      var rest := Collapse(words[1..], flags[1..], flags[0]);
      CollapseShape(words[1..], flags[1..], flags[0]);
      var out := Collapse(words, flags, inRun);
      if flags[0] {
        if inRun {
          assert out == rest;
        } else {
          assert out == [MARK] + rest && out[1..] == rest;
        }
      } else {
        MarkIsNoWord(words[0]);
        assert out == [words[0]] + rest && out[1..] == rest;
      }
    }
  }

  // ---------------------------------------------------------------- the second pass

  /** The words of the output text: a marker is two of them. */
  function Expand(out: seq<string>): seq<string> {
    if out == [] then []
    else (if out[0] == MARK then [MARK_OPEN, MARK_CLOSE] else [out[0]]) + Expand(out[1..])
  }

  predicate WordsOrMarks(out: seq<string>) {
    forall k :: 0 <= k < |out| ==> out[k] == MARK || IsWord(out[k])
  }

  lemma MarkWords()
    ensures IsWord(MARK_OPEN) && IsWord(MARK_CLOSE) && MARK == MARK_OPEN + " " + MARK_CLOSE
  {
  }

  lemma TwoWords(a: string, b: string, tail: string)
    requires IsWord(a) && IsWord(b)
    ensures Words(a + " " + (b + " " + tail)) == [a, b] + Words(tail)
  {
    var rest := b + " " + tail;
    WordThenSpace(a, rest);
    WordThenSpace(b, tail);
    assert [a] + ([b] + Words(tail)) == [a, b] + Words(tail);
  }

  lemma Reassociate(a: string, b: string, tail: string)
    ensures (a + " " + b) + " " + tail == a + " " + (b + " " + tail)
  {
  }

  lemma MarkThenSpace(tail: string)
    ensures Words(MARK + " " + tail) == [MARK_OPEN, MARK_CLOSE] + Words(tail)
  {
    MarkWords();
    Reassociate(MARK_OPEN, MARK_CLOSE, tail);
    TwoWords(MARK_OPEN, MARK_CLOSE, tail);
  }

  lemma MarkAlone()
    ensures Words(MARK) == [MARK_OPEN, MARK_CLOSE]
  {
    MarkWords();
    WordThenSpace(MARK_OPEN, MARK_CLOSE);
    WordAlone(MARK_CLOSE);
  }

  lemma ExpandCons(x: string, rest: seq<string>)
    ensures Expand([x] + rest) == (if x == MARK then [MARK_OPEN, MARK_CLOSE] else [x]) + Expand(rest)
  {
    assert ([x] + rest)[1..] == rest;
  }

  lemma {:induction false} JoinedWords(out: seq<string>)
    requires WordsOrMarks(out)
    ensures Words(Join(out)) == Expand(out)
  {
    if out != [] {
      var rest := out[1..];
      assert out == [out[0]] + rest;
      ExpandCons(out[0], rest);
      if rest == [] {
        if out[0] == MARK {
          MarkAlone();
        } else {
          WordAlone(out[0]);
        }
      } else {
        JoinedWords(rest);
        if out[0] == MARK {
          MarkThenSpace(Join(rest));
        } else {
          WordThenSpace(out[0], Join(rest));
        }
      }
    }
  }

  /** Where each word of the expanded output comes from: its index in the text, or -1 for a marker's word. */
  function Sources(flags: seq<bool>, from: nat, inRun: bool): seq<int> {
    if flags == [] then []
    else if flags[0] then (if inRun then [] else [-1, -1]) + Sources(flags[1..], from + 1, true)
    else [from as int] + Sources(flags[1..], from + 1, false)
  }

  /** Kept words are unflagged, and neighbours in the output were neighbours in the text. */
  predicate SourcesOk(src: seq<int>, tokens: seq<string>, all: seq<string>, allFlags: seq<bool>) {
    |src| == |tokens| && |all| == |allFlags|
    && (forall k :: 0 <= k < |src| ==>
          if src[k] < 0 then tokens[k] == MARK_OPEN || tokens[k] == MARK_CLOSE
          else src[k] < |all| && !allFlags[src[k]] && tokens[k] == all[src[k]])
    && forall k :: 0 <= k < |src| - 1 ==> src[k] < 0 || src[k + 1] < 0 || src[k + 1] == src[k] + 1
  }

  /** Right after an unflagged word comes the next word of the text or a marker; after a run that is
      already marked comes a kept word or nothing. */
  lemma {:induction false} SourcesTrace(all: seq<string>, allFlags: seq<bool>, from: nat, inRun: bool)
    requires |all| == |allFlags| && from <= |all| && forall k :: 0 <= k < |all| ==> IsWord(all[k])
    ensures var src := Sources(allFlags[from..], from, inRun);
      SourcesOk(src, Expand(Collapse(all[from..], allFlags[from..], inRun)), all, allFlags)
      && (!inRun && src != [] ==> src[0] < 0 || src[0] == from)
    decreases |all| - from
  {
    var src := Sources(allFlags[from..], from, inRun);
    if from < |all| {
      var flag := allFlags[from];
      assert allFlags[from..][0] == flag && allFlags[from..][1..] == allFlags[from + 1..];
      var rest := Sources(allFlags[from + 1..], from + 1, flag);
      var out := Collapse(all[from + 1..], allFlags[from + 1..], flag);
      SourcesTrace(all, allFlags, from + 1, flag);
      CollapseStep(all, allFlags, from, inRun);
      if flag && inRun {
        assert src == rest;
        assert Collapse(all[from..], allFlags[from..], inRun) == out;
      } else if flag {
        assert ([MARK] + out)[1..] == out;
        assert Expand([MARK] + out) == [MARK_OPEN, MARK_CLOSE] + Expand(out);
        SourcesPrepend([-1, -1], [MARK_OPEN, MARK_CLOSE], rest, Expand(out), all, allFlags);
      } else {
        MarkIsNoWord(all[from]);
        assert ([all[from]] + out)[1..] == out;
        assert Expand([all[from]] + out) == [all[from]] + Expand(out);
        SourcesPrepend([from], [all[from]], rest, Expand(out), all, allFlags);
      }
    }
  }

  lemma SourcesPrepend(s: seq<int>, t: seq<string>, src: seq<int>, tokens: seq<string>, all: seq<string>, allFlags: seq<bool>)
    requires SourcesOk(s, t, all, allFlags) && SourcesOk(src, tokens, all, allFlags) && s != []
    requires src != [] ==> s[|s| - 1] < 0 || src[0] < 0 || src[0] == s[|s| - 1] + 1
    ensures SourcesOk(s + src, t + tokens, all, allFlags)
  {
    var u := s + src;
    forall k | 0 <= k < |u| - 1
      ensures u[k] < 0 || u[k + 1] < 0 || u[k + 1] == u[k] + 1
    {
      if k >= |s| {
        assert u[k] == src[k - |s|] && u[k + 1] == src[k + 1 - |s|];
      }
    }
  }

  /** Unbroken stretches of kept words are stretches of the text. */
  lemma {:induction false} Consecutive(src: seq<int>, tokens: seq<string>, all: seq<string>, allFlags: seq<bool>, i: nat, n: nat)
    requires SourcesOk(src, tokens, all, allFlags) && n > 0 && i + n <= |src|
    requires forall k :: i <= k < i + n ==> src[k] >= 0
    ensures src[i + n - 1] == src[i] + n - 1 && src[i] + n <= |all|
    ensures tokens[i..i + n] == all[src[i]..src[i] + n]
  {
    if n == 1 {
      assert tokens[i..i + 1] == [tokens[i]] && all[src[i]..src[i] + 1] == [all[src[i]]];
    } else {
      Consecutive(src, tokens, all, allFlags, i, n - 1);
      assert tokens[i..i + n] == tokens[i..i + n - 1] + [tokens[i + n - 1]];
      var s := src[i];
      assert src[i + n - 2] == s + n - 2 && src[i + n - 1] == s + n - 1;
      assert all[s..s + n] == all[s..s + n - 1] + [all[s + n - 1]];
    }
  }

  // ---------------------------------------------------------------- the words of the output

  /** The words of the output from word j of the text on. */
  function Tokens(words: seq<string>, flags: seq<bool>, j: nat, inRun: bool): seq<string>
    requires |words| == |flags| && j <= |words|
  {
    Expand(Collapse(words[j..], flags[j..], inRun))
  }

  lemma TokensStep(words: seq<string>, flags: seq<bool>, j: nat, inRun: bool)
    requires |words| == |flags| && j <= |words| && forall k :: 0 <= k < |words| ==> IsWord(words[k])
    ensures Tokens(words, flags, j, inRun)
      == if j == |words| then []
         else if flags[j] then (if inRun then [] else [MARK_OPEN, MARK_CLOSE]) + Tokens(words, flags, j + 1, true)
         else [words[j]] + Tokens(words, flags, j + 1, false)
  {
    if j < |words| {
      CollapseStep(words, flags, j, inRun);
      if flags[j] && !inRun {
        ExpandCons(MARK, Collapse(words[j + 1..], flags[j + 1..], true));
      } else if flags[j] {
        var rest := Collapse(words[j + 1..], flags[j + 1..], true);
        assert [] + rest == rest && [] + Expand(rest) == Expand(rest);
      } else {
        MarkIsNoWord(words[j]);
        ExpandCons(words[j], Collapse(words[j + 1..], flags[j + 1..], false));
      }
    }
  }

  lemma {:induction false} OutputIsWordsOrMarks(words: seq<string>, flags: seq<bool>, inRun: bool)
    requires |words| == |flags| && forall k :: 0 <= k < |words| ==> IsWord(words[k])
    ensures WordsOrMarks(Collapse(words, flags, inRun))
  {
    if words != [] {
      OutputIsWordsOrMarks(words[1..], flags[1..], flags[0]);
    }
  }

  lemma {:induction false} CollapseNothing(words: seq<string>, flags: seq<bool>)
    requires |words| == |flags| && true !in flags
    ensures Collapse(words, flags, false) == words
  {
    if words != [] {
      CollapseNothing(words[1..], flags[1..]);
    }
  }

  /** Splitting the output again, whether or not anything was flagged. */
  lemma StrippedWords(text: string, refs: seq<string>, n: nat)
    ensures Words(Stripped(text, refs, n).0) == Tokens(Words(text), Flags(Words(text), refs, n), 0, false)
  {
    hide Words, Join, Marked;
    var words := Words(text);
    var flags := Flags(words, refs, n);
    assert words[0..] == words && flags[0..] == flags;
    if true in flags {
      OutputIsWordsOrMarks(words, flags, false);
      JoinedWords(Collapse(words, flags, false));
    } else {
      CollapseNothing(words, flags);
      ExpandWords(words, []);
      assert words + [] == words;
    }
  }

  lemma {:induction false} ExpandWords(ws: seq<string>, out: seq<string>)
    requires forall k :: 0 <= k < |ws| ==> IsWord(ws[k])
    ensures Expand(ws + out) == ws + Expand(out)
  {
    if ws == [] {
      assert ws + out == out;
    } else {
      MarkIsNoWord(ws[0]);
      assert (ws + out)[0] == ws[0] && (ws + out)[1..] == ws[1..] + out;
      ExpandWords(ws[1..], out);
    }
  }

  // ---------------------------------------------------------------- what is left of the references

  lemma EchoIsFlagged(words: seq<string>, i: int, refs: seq<string>, n: nat)
    requires n > 0 && Echoes(words, i, refs, n)
    ensures Flags(words, refs, n)[i]
  {
    assert Marked(words, i, refs, n);
  }

  /** For any references: a window that is left has a word of an inserted marker in it. */
  lemma EchoHasMarker(text: string, refs: seq<string>, n: nat, i: int)
    requires n > 0 && Echoes(Words(Stripped(text, refs, n).0), i, refs, n)
    ensures var flags := Flags(Words(text), refs, n);
      var src := Sources(flags, 0, false);
      i + n <= |src| && exists k :: i <= k < i + n && src[k] < 0
  {
    hide Words, Join, Collapse, Expand, Sources, Marked;
    var words := Words(text);
    var flags := Flags(words, refs, n);
    StrippedWords(text, refs, n);
    var tokens := Tokens(words, flags, 0, false);
    var src := Sources(flags, 0, false);
    assert words[0..] == words && flags[0..] == flags;
    SourcesTrace(words, flags, 0, false);
    if forall k :: i <= k < i + n ==> src[k] >= 0 {
      Consecutive(src, tokens, words, flags, i, n);
      var s := src[i];
      assert Echoes(words, s, refs, n);
      EchoIsFlagged(words, s, refs, n);
    }
  }

  predicate HasMarkerWord(w: seq<string>) {
    MARK_OPEN in w || MARK_CLOSE in w
  }

  lemma EchoMentionsMarker(text: string, refs: seq<string>, n: nat, i: int)
    requires n > 0 && Echoes(Words(Stripped(text, refs, n).0), i, refs, n)
    ensures HasMarkerWord(Words(Stripped(text, refs, n).0)[i..i + n])
  {
    hide Words, Join, Collapse, Expand, Sources, Marked;
    var words := Words(text);
    var flags := Flags(words, refs, n);
    var src := Sources(flags, 0, false);
    EchoHasMarker(text, refs, n, i);
    StrippedWords(text, refs, n);
    assert words[0..] == words && flags[0..] == flags;
    SourcesTrace(words, flags, 0, false);
    var tokens := Tokens(words, flags, 0, false);
    var k :| i <= k < i + n && src[k] < 0;
    assert tokens[i..i + n][k - i] == tokens[k];
  }

  /** w can be read off the text from word j on, a flagged run reading as the two words of the marker;
      `inRun` says that the run at j has been read already. */
  predicate ReadsAt(w: seq<string>, words: seq<string>, flags: seq<bool>, j: nat, inRun: bool)
    requires |words| == |flags| && j <= |words|
    decreases |words| - j
  {
    if w == [] then true
    else if j == |words| then false
    else if flags[j] && inRun then ReadsAt(w, words, flags, j + 1, true)
    else if flags[j] then
      w[0] == MARK_OPEN && (|w| == 1 || (w[1] == MARK_CLOSE && ReadsAt(w[2..], words, flags, j + 1, true)))
    else w[0] == words[j] && ReadsAt(w[1..], words, flags, j + 1, false)
  }

  /** w is read from a kept word k, or from either marker word of the run that begins at k. */
  predicate BeginsAt(w: seq<string>, words: seq<string>, flags: seq<bool>, k: nat, inRun: bool)
    requires w != [] && |words| == |flags| && k < |words|
  {
    !(flags[k] && inRun)
    && (ReadsAt(w, words, flags, k, false)
        || (flags[k] && w[0] == MARK_CLOSE && ReadsAt(w[1..], words, flags, k + 1, true)))
  }

  lemma PrefixCons(w: seq<string>, x: string, rest: seq<string>)
    requires w != []
    ensures w <= [x] + rest <==> w[0] == x && w[1..] <= rest
  {
    if w[0] == x && w[1..] <= rest {
      assert w == [x] + w[1..];
    }
    if w <= [x] + rest {
      assert w[1..] == ([x] + rest)[..|w|][1..] == rest[..|w| - 1];
    }
  }

  lemma {:induction false} ReadsIff(w: seq<string>, words: seq<string>, flags: seq<bool>, j: nat, inRun: bool)
    requires |words| == |flags| && j <= |words| && forall k :: 0 <= k < |words| ==> IsWord(words[k])
    ensures ReadsAt(w, words, flags, j, inRun) <==> w <= Tokens(words, flags, j, inRun)
    decreases |words| - j
  {
    hide Tokens;
    TokensStep(words, flags, j, inRun);
    if w != [] && j < |words| {
      if flags[j] && inRun {
        ReadsIff(w, words, flags, j + 1, true);
        assert [] + Tokens(words, flags, j + 1, true) == Tokens(words, flags, j + 1, true);
      } else if flags[j] {
        var rest := Tokens(words, flags, j + 1, true);
        assert [MARK_OPEN, MARK_CLOSE] + rest == [MARK_OPEN] + ([MARK_CLOSE] + rest);
        PrefixCons(w, MARK_OPEN, [MARK_CLOSE] + rest);
        if |w| > 1 {
          PrefixCons(w[1..], MARK_CLOSE, rest);
          assert w[1..][1..] == w[2..];
          ReadsIff(w[2..], words, flags, j + 1, true);
        }
      } else {
        PrefixCons(w, words[j], Tokens(words, flags, j + 1, false));
        ReadsIff(w[1..], words, flags, j + 1, false);
      }
    }
  }

  /** The context of word k, when reading starts in the given one at word j. */
  function Context(flags: seq<bool>, j: nat, inRun: bool, k: nat): bool
    requires j <= k < |flags|
  {
    if k == j then inRun else flags[k - 1]
  }

  lemma WindowTail(w: seq<string>, head: seq<string>, rest: seq<string>, p: nat)
    requires p >= |head|
    ensures IsWindow(w, head + rest, p, |w|) <==> IsWindow(w, rest, p - |head|, |w|)
  {
    if p + |w| <= |head + rest| {
      assert (head + rest)[p..p + |w|] == rest[p - |head|..p - |head| + |w|];
    }
  }

  lemma WindowHead(w: seq<string>, all: seq<string>)
    ensures IsWindow(w, all, 0, |w|) <==> w <= all
  {
  }

  lemma WindowInside(w: seq<string>, all: seq<string>, p: nat)
    requires w != [] && IsWindow(w, all, p, |w|)
    ensures all != []
  {
  }

  lemma SecondMarkerWord(w: seq<string>, rest: seq<string>)
    requires w != []
    ensures IsWindow(w, [MARK_OPEN, MARK_CLOSE] + rest, 1, |w|) <==> w[0] == MARK_CLOSE && w[1..] <= rest
  {
    assert [MARK_OPEN, MARK_CLOSE] + rest == [MARK_OPEN] + ([MARK_CLOSE] + rest);
    WindowTail(w, [MARK_OPEN], [MARK_CLOSE] + rest, 1);
    WindowHead(w, [MARK_CLOSE] + rest);
    PrefixCons(w, MARK_CLOSE, rest);
  }

  lemma BeginsHere(w: seq<string>, words: seq<string>, flags: seq<bool>, j: nat, inRun: bool)
    requires |words| == |flags| && j < |words| && forall k :: 0 <= k < |words| ==> IsWord(words[k])
    requires !(flags[j] && inRun)
    ensures ReadsAt(w, words, flags, j, false) <==> IsWindow(w, Tokens(words, flags, j, inRun), 0, |w|)
  {
    hide Tokens, ReadsAt;
    ReadsIff(w, words, flags, j, false);
    TokensStep(words, flags, j, false);
    TokensStep(words, flags, j, inRun);
    WindowHead(w, Tokens(words, flags, j, inRun));
  }

  /** Every window of the output is read off the text somewhere. */
  lemma {:induction false} OccursThenBegins(w: seq<string>, words: seq<string>, flags: seq<bool>, j: nat, inRun: bool, p: nat)
    returns (k: nat)
    requires w != [] && |words| == |flags| && j <= |words| && forall k :: 0 <= k < |words| ==> IsWord(words[k])
    requires IsWindow(w, Tokens(words, flags, j, inRun), p, |w|)
    ensures j <= k < |words| && BeginsAt(w, words, flags, k, Context(flags, j, inRun, k))
    decreases |words| - j
  {
    hide Tokens, ReadsAt, IsWindow;
    TokensStep(words, flags, j, inRun);
    var all := Tokens(words, flags, j, inRun);
    WindowInside(w, all, p);
    var rest := if flags[j] then Tokens(words, flags, j + 1, true) else Tokens(words, flags, j + 1, false);
    var head := if !flags[j] then [words[j]] else if inRun then [] else [MARK_OPEN, MARK_CLOSE];
    assert all == head + rest;
    if p >= |head| {
      WindowTail(w, head, rest, p);
      k := OccursThenBegins(w, words, flags, j + 1, flags[j], p - |head|);
    } else {
      k := j;
      if p == 0 {
        BeginsHere(w, words, flags, j, inRun);
      } else {
        SecondMarkerWord(w, rest);
        ReadsIff(w[1..], words, flags, j + 1, true);
      }
    }
  }

  /** And whatever is read off the text is in the output. */
  lemma {:induction false} BeginsThenOccurs(w: seq<string>, words: seq<string>, flags: seq<bool>, j: nat, inRun: bool, k: nat)
    returns (p: nat)
    requires w != [] && |words| == |flags| && j <= k < |words| && forall k :: 0 <= k < |words| ==> IsWord(words[k])
    requires BeginsAt(w, words, flags, k, Context(flags, j, inRun, k))
    ensures IsWindow(w, Tokens(words, flags, j, inRun), p, |w|)
    decreases |words| - j
  {
    hide Tokens, ReadsAt, IsWindow;
    TokensStep(words, flags, j, inRun);
    var all := Tokens(words, flags, j, inRun);
    var rest := if flags[j] then Tokens(words, flags, j + 1, true) else Tokens(words, flags, j + 1, false);
    var head := if !flags[j] then [words[j]] else if inRun then [] else [MARK_OPEN, MARK_CLOSE];
    assert all == head + rest;
    if k > j {
      p := BeginsThenOccurs(w, words, flags, j + 1, flags[j], k);
      WindowTail(w, head, rest, p + |head|);
      p := p + |head|;
    } else if ReadsAt(w, words, flags, j, false) {
      BeginsHere(w, words, flags, j, inRun);
      p := 0;
    } else {
      ReadsIff(w[1..], words, flags, j + 1, true);
      SecondMarkerWord(w, rest);
      p := 1;
    }
  }

  /** The output still has a window of a reference. */
  ghost predicate EchoLeft(text: string, refs: seq<string>, n: nat) {
    exists i :: Echoes(Words(Stripped(text, refs, n).0), i, refs, n)
  }

  /** A window of a reference, with a word of the marker in it, can be read off the text at word k. */
  ghost predicate Completes(words: seq<string>, flags: seq<bool>, refs: seq<string>, n: nat, w: seq<string>, k: nat)
    requires |words| == |flags|
  {
    w != [] && IsReferenceWindow(w, refs, n) && HasMarkerWord(w)
    && k < |words| && BeginsAt(w, words, flags, k, Context(flags, 0, false, k))
  }

  /** An echo is left exactly when a window of a reference that mentions the marker matches the words of
      the text around its flagged runs, each run read as the marker. */
  lemma EchoLeftIff(text: string, refs: seq<string>, n: nat)
    requires n > 0
    ensures EchoLeft(text, refs, n)
      <==> exists w, k :: Completes(Words(text), Flags(Words(text), refs, n), refs, n, w, k)
  {
    hide Words, Marked, Stripped, ReadsAt, BeginsAt, Tokens;
    var words := Words(text);
    var flags := Flags(words, refs, n);
    var tokens := Tokens(words, flags, 0, false);
    StrippedWords(text, refs, n);
    if EchoLeft(text, refs, n) {
      var i :| Echoes(tokens, i, refs, n);
      var w := tokens[i..i + n];
      EchoMentionsMarker(text, refs, n, i);
      var k := OccursThenBegins(w, words, flags, 0, false, i);
      assert Completes(words, flags, refs, n, w, k);
    }
    if w, k :| Completes(words, flags, refs, n, w, k) {
      var p := BeginsThenOccurs(w, words, flags, 0, false, k);
      WindowLength(w, refs, n);
      assert Echoes(tokens, p, refs, n);
    }
  }

  lemma WindowLength(w: seq<string>, refs: seq<string>, n: nat)
    requires IsReferenceWindow(w, refs, n)
    ensures |w| == n
  {
  }

  /** No window of a reference has a word of the marker in it. */
  ghost predicate MarkerFree(refs: seq<string>, n: nat) {
    forall w :: IsReferenceWindow(w, refs, n) ==> !HasMarkerWord(w)
  }

  /** So references that do not mention the marker leave nothing: the filtered text contains no window of any of them. */
  lemma NoEchoLeft(text: string, refs: seq<string>, n: nat, i: int)
    requires MarkerFree(refs, n) && n > 0
    ensures !Echoes(Words(Stripped(text, refs, n).0), i, refs, n)
  {
    if Echoes(Words(Stripped(text, refs, n).0), i, refs, n) {
      EchoMentionsMarker(text, refs, n, i);
    }
  }

  /** A second pass changes nothing exactly when the first left no echo. */
  lemma SecondPassIdleIff(text: string, refs: seq<string>, n: nat)
    requires n > 0
    ensures var once := Stripped(text, refs, n).0;
      Stripped(once, refs, n) == (once, false) <==> !EchoLeft(text, refs, n)
  {
    var once := Stripped(text, refs, n).0;
    AnyMarkedIff(Words(once), refs, n);
  }

  lemma AnyMarkedIff(words: seq<string>, refs: seq<string>, n: nat)
    requires n > 0
    ensures true in Flags(words, refs, n) <==> exists i :: Echoes(words, i, refs, n)
  {
    var flags := Flags(words, refs, n);
    if true in flags {
      var j :| 0 <= j < |flags| && flags[j];
      var i :| i <= j < i + n && Echoes(words, i, refs, n);
    }
    if i :| Echoes(words, i, refs, n) {
      EchoIsFlagged(words, i, refs, n);
    }
  }

  /** For references that do not mention the marker, a second pass changes nothing. */
  lemma SecondPassIsIdle(text: string, refs: seq<string>, n: nat)
    requires MarkerFree(refs, n) && n > 0
    ensures var once := Stripped(text, refs, n).0;
      Stripped(once, refs, n) == (once, false)
  {
    SecondPassIdleIff(text, refs, n);
    if i :| Echoes(Words(Stripped(text, refs, n).0), i, refs, n) {
      NoEchoLeft(text, refs, n, i);
    }
  }

  // ---------------------------------------------------------------- when the text changes

  /** A run that begins at word j has at least three words. */
  predicate LongAt(flags: seq<bool>, j: nat)
    requires j < |flags|
  {
    flags[j] && (j == 0 || !flags[j - 1]) ==> j + 2 < |flags| && flags[j + 1] && flags[j + 2]
  }

  predicate RunsLong(flags: seq<bool>) {
    forall j :: 0 <= j < |flags| ==> LongAt(flags, j)
  }

  lemma EchoesFlagWindow(words: seq<string>, refs: seq<string>, n: nat, i: int)
    requires Echoes(words, i, refs, n)
    ensures forall k :: i <= k < i + n ==> Flags(words, refs, n)[k]
  {
  }

  lemma FlagRunsLong(words: seq<string>, refs: seq<string>, n: nat)
    requires n > 2
    ensures RunsLong(Flags(words, refs, n))
  {
    hide Echoes;
    var flags := Flags(words, refs, n);
    forall j | 0 <= j < |flags|
      ensures LongAt(flags, j)
    {
      if flags[j] && (j == 0 || !flags[j - 1]) {
        assert Marked(words, j, refs, n);
        var i :| i <= j < i + n && Echoes(words, i, refs, n);
        EchoesFlagWindow(words, refs, n, i);
        EchoInside(words, refs, n, i);
        assert i == j;
      }
    }
  }

  lemma EchoInside(words: seq<string>, refs: seq<string>, n: nat, i: int)
    requires Echoes(words, i, refs, n)
    ensures 0 <= i && i + n <= |words|
  {
  }

  /** The end of the run at j. */
  function RunEnd(flags: seq<bool>, j: nat): (e: nat)
    requires j <= |flags|
    ensures j <= e <= |flags| && (e < |flags| ==> !flags[e])
    ensures forall k :: j <= k < e ==> flags[k]
    decreases |flags| - j
  {
    if j == |flags| || !flags[j] then j else RunEnd(flags, j + 1)
  }

  lemma {:induction false} TokensAfterRun(words: seq<string>, flags: seq<bool>, j: nat)
    requires |words| == |flags| && j <= |words| && forall k :: 0 <= k < |words| ==> IsWord(words[k])
    ensures Tokens(words, flags, j, true) == Tokens(words, flags, RunEnd(flags, j), false)
    decreases |words| - j
  {
    hide Tokens;
    TokensStep(words, flags, j, true);
    if j < |words| && flags[j] {
      TokensAfterRun(words, flags, j + 1);
      assert [] + Tokens(words, flags, j + 1, true) == Tokens(words, flags, j + 1, true);
    } else {
      TokensStep(words, flags, j, false);
    }
  }

  /** Markers of two words in place of longer runs: the output has fewer words. */
  lemma {:induction false} TokensShort(words: seq<string>, flags: seq<bool>, j: nat)
    requires |words| == |flags| && j <= |words| && forall k :: 0 <= k < |words| ==> IsWord(words[k])
    requires RunsLong(flags) && (j == 0 || j == |words| || !flags[j] || !flags[j - 1])
    ensures |Tokens(words, flags, j, false)| <= |words| - j
    ensures true in flags[j..] ==> |Tokens(words, flags, j, false)| < |words| - j
    decreases |words| - j
  {
    hide Tokens;
    TokensStep(words, flags, j, false);
    if j < |words| {
      if flags[j] {
        var e := RunEnd(flags, j + 1);
        TokensAfterRun(words, flags, j + 1);
        assert LongAt(flags, j) && e >= j + 3;
        TokensShort(words, flags, e);
      } else {
        assert flags[j..] == [flags[j]] + flags[j + 1..];
        TokensShort(words, flags, j + 1);
      }
    }
  }

  /** With windows of three words or more, as in every call, the filter changes a text exactly when the
      text has a window of a reference. */
  lemma ChangedIffEcho(text: string, refs: seq<string>, n: nat)
    requires n > 2
    ensures Stripped(text, refs, n).0 != text <==> exists i :: Echoes(Words(text), i, refs, n)
    ensures Stripped(text, refs, n).1 <==> exists i :: Echoes(Words(text), i, refs, n)
  {
    hide Words, Marked, Tokens;
    var words := Words(text);
    var flags := Flags(words, refs, n);
    AnyMarkedIff(words, refs, n);
    FlagRunsLong(words, refs, n);
    StrippedWords(text, refs, n);
    TokensShort(words, flags, 0);
    assert flags[0..] == flags;
  }

  /** The filter leaves no text blank that was not. */
  lemma NeverBlanks(text: string, refs: seq<string>, n: nat)
    requires !Blank(text)
    ensures !Blank(Stripped(text, refs, n).0)
  {
    hide Words, Marked, Tokens, Blank, Stripped;
    WordsEmptyIff(text);
    StrippedWords(text, refs, n);
    TokensStep(Words(text), Flags(Words(text), refs, n), 0, false);
    WordsEmptyIff(Stripped(text, refs, n).0);
  }

  // ---------------------------------------------------------------- a reference that mentions the marker

  function Copies(w: string, n: nat): seq<string> {
    seq(n, _ => w)
  }

  lemma JoinedBack(ws: seq<string>)
    requires forall k :: 0 <= k < |ws| ==> IsWord(ws[k])
    ensures Words(Join(ws)) == ws
  {
    JoinedWords(ws);
    ExpandWords(ws, []);
    assert ws + [] == ws;
  }

  lemma {:induction false} CollapseAll(ws: seq<string>, flags: seq<bool>)
    requires |ws| == |flags| && forall k :: 0 <= k < |flags| ==> flags[k]
    ensures Collapse(ws, flags, true) == []
  {
    if ws != [] {
      CollapseAll(ws[1..], flags[1..]);
    }
  }

  /** Words kept, then one run to the end. */
  lemma {:induction false} CollapseTail(ws: seq<string>, flags: seq<bool>, kept: nat)
    requires |ws| == |flags| && kept < |ws| && forall k :: 0 <= k < |flags| ==> (flags[k] <==> k >= kept)
    ensures Collapse(ws, flags, false) == ws[..kept] + [MARK]
    decreases kept
  {
    if kept == 0 {
      CollapseAll(ws[1..], flags[1..]);
    } else {
      CollapseTail(ws[1..], flags[1..], kept - 1);
      assert ws[..kept] == [ws[0]] + ws[1..][..kept - 1];
    }
  }

  function LeakyText(n: nat): seq<string>
    requires n > 0
  {
    Copies("k", n - 1) + Copies("a", n)
  }

  function LeakyEnd(n: nat): seq<string>
    requires n > 0
  {
    Copies("k", n - 1) + [MARK_OPEN]
  }

  function LeakyReferences(n: nat): seq<string>
    requires n > 0
  {
    [Join(Copies("a", n)), Join(LeakyEnd(n))]
  }

  lemma LeakyWords(n: nat)
    requires n > 0
    ensures Words(LeakyReferences(n)[0]) == Copies("a", n) && Words(LeakyReferences(n)[1]) == LeakyEnd(n)
    ensures Words(Join(LeakyText(n))) == LeakyText(n)
  {
    hide Words, Join;
    MarkWords();
    JoinedBack(Copies("a", n));
    JoinedBack(LeakyEnd(n));
    JoinedBack(LeakyText(n));
  }

  /** The two references, known by their words. */
  predicate Leaky(refs: seq<string>, n: nat)
    requires n > 0
  {
    |refs| == 2 && Words(refs[0]) == Copies("a", n) && Words(refs[1]) == LeakyEnd(n)
  }

  lemma EchoAtTail(refs: seq<string>, n: nat)
    requires n > 0 && Leaky(refs, n)
    ensures Echoes(LeakyText(n), n - 1, refs, n)
  {
    hide Words;
    var w := LeakyText(n)[n - 1..n - 1 + n];
    assert w == Copies("a", n);
    assert IsWindow(w, Words(refs[0]), 0, n);
  }

  lemma NoOtherEcho(refs: seq<string>, n: nat, i: int)
    requires n > 0 && Leaky(refs, n) && Echoes(LeakyText(n), i, refs, n)
    ensures i == n - 1
  {
    hide Words;
    var words := LeakyText(n);
    var w := words[i..i + n];
    var r, k :| 0 <= r < |refs| && 0 <= k && IsWindow(w, Words(refs[r]), k, n);
    assert w == Words(refs[r]);
    assert w[0] == words[i] && w[n - 1] == words[i + n - 1];
  }

  /** Only the second half of the text is a window of a reference. */
  lemma LeakyFlags(refs: seq<string>, n: nat)
    requires n > 0 && Leaky(refs, n)
    ensures forall j :: 0 <= j < 2 * n - 1 ==> (Flags(LeakyText(n), refs, n)[j] <==> j >= n - 1)
  {
    hide Words, Echoes;
    var words := LeakyText(n);
    EchoAtTail(refs, n);
    forall j | 0 <= j < 2 * n - 1
      ensures Marked(words, j, refs, n) <==> j >= n - 1
    {
      if Marked(words, j, refs, n) {
        var i :| i <= j < i + n && Echoes(words, i, refs, n);
        NoOtherEcho(refs, n, i);
      }
    }
  }

  lemma LeakyOutput(refs: seq<string>, n: nat)
    requires n > 0 && Leaky(refs, n)
    ensures Collapse(LeakyText(n), Flags(LeakyText(n), refs, n), false) == Copies("k", n - 1) + [MARK]
  {
    hide Words, Marked;
    LeakyFlags(refs, n);
    CollapseTail(LeakyText(n), Flags(LeakyText(n), refs, n), n - 1);
    assert LeakyText(n)[..n - 1] == Copies("k", n - 1);
  }

  lemma OutputWords(n: nat)
    requires n > 0
    ensures Words(Join(Copies("k", n - 1) + [MARK])) == LeakyEnd(n) + [MARK_CLOSE]
  {
    hide Words, Join;
    var out := Copies("k", n - 1) + [MARK];
    JoinedWords(out);
    ExpandWords(Copies("k", n - 1), [MARK]);
    assert [MARK][1..] == [];
    assert LeakyEnd(n) + [MARK_CLOSE] == Copies("k", n - 1) + [MARK_OPEN, MARK_CLOSE];
  }

  /** Without MarkerFree the filter can build what it removes: the text up to the echo and the marker's
      first word together are a window of the second reference. */
  lemma MarkerCompletesEcho(n: nat)
    requires n > 0
    ensures !MarkerFree(LeakyReferences(n), n)
    ensures Echoes(Words(Stripped(Join(LeakyText(n)), LeakyReferences(n), n).0), 0, LeakyReferences(n), n)
  {
    hide Words, Join, Marked, Collapse;
    var words, refs := LeakyText(n), LeakyReferences(n);
    var flags := Flags(words, refs, n);
    LeakyWords(n);
    LeakyFlags(refs, n);
    LeakyOutput(refs, n);
    OutputWords(n);
    assert LeakyEnd(n)[n - 1] == MARK_OPEN && MARK_OPEN in LeakyEnd(n);
    assert flags[n - 1] && true in flags;
    var tokens := LeakyEnd(n) + [MARK_CLOSE];
    assert tokens[0..n] == LeakyEnd(n);
    assert IsWindow(tokens[0..n], Words(refs[1]), 0, n);
    assert IsReferenceWindow(LeakyEnd(n), refs, n);
  }
}
