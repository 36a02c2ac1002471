/** The allowed-origins text of `ProviderSettings` (chat/models.py) and how every save rewrites it. */
module Origins {
  import opened Prelude
  import opened PyText

  /** `re.split(r"[\n,]+", text)`; the empty pieces between adjacent separators are skipped by the caller. */
  function Pieces(text: string, piece: string): seq<string> {
    if text == "" then [piece]
    else if text[0] == '\n' || text[0] == ',' then [piece] + Pieces(text[1..], "")
    else Pieces(text[1..], piece + [text[0]])
  }

  function StripSlashes(s: string): (r: string)
    ensures r <= s
  {
    if s != "" && s[|s| - 1] == '/' then StripSlashes(s[..|s| - 1]) else s
  }

  /** `part.strip().rstrip("/")`. */
  function Clean(part: string): string {
    StripSlashes(Strip(part))
  }

  /** The loop of `allowed_origins_list`: clean, skip empty, skip repeated. */
  function Collect(parts: seq<string>, origins: seq<string>): seq<string> {
    if parts == [] then origins
    else
      var origin := Clean(parts[0]);
      Collect(parts[1..], if origin != "" && origin !in origins then origins + [origin] else origins)
  }

  function OriginsList(text: string): seq<string> {
    Collect(Pieces(text, ""), [])
  }

  method AllowedOriginsList(text: string) returns (origins: seq<string>)
    ensures origins == OriginsList(text)
  {
    origins := [];
    var parts := Pieces(text, "");
    for i := 0 to |parts|
      invariant Collect(parts[i..], origins) == OriginsList(text)
    {
      var origin := Clean(parts[i]);
      assert parts[i..][1..] == parts[i + 1..];
      if origin != "" && origin !in origins {
        origins := origins + [origin];
      }
    }
  }

  /** What `ProviderSettings.save` stores. */
  function Saved(text: string): string {
    if text == "" then "" else JoinLines(OriginsList(text))
  }

  predicate NoSeparator(s: string) {
    forall i :: 0 <= i < |s| ==> s[i] != '\n' && s[i] != ','
  }

  /** What the loop collects: not empty, no white space in front, no slash at the end, one piece. */
  predicate IsOrigin(o: string) {
    o != "" && !IsSpace(o[0]) && o[|o| - 1] != '/' && NoSeparator(o)
  }

  predicate EndsInSpace(o: string) {
    o != "" && IsSpace(o[|o| - 1])
  }

  // ---------------------------------------------------------------- cleaning

  lemma {:induction false} StripLeftSuffix(s: string)
    ensures |StripLeft(s)| <= |s| && StripLeft(s) == s[|s| - |StripLeft(s)|..]
    ensures StripLeft(s) == "" || !IsSpace(StripLeft(s)[0])
  {
    if s != "" && IsSpace(s[0]) {
      StripLeftSuffix(s[1..]);
    }
  }

  lemma {:induction false} StripRightPrefix(s: string)
    ensures StripRight(s) <= s
  {
    if s != "" {
      StripRightPrefix(s[..|s| - 1]);
    }
  }

  lemma {:induction false} StripSlashesEnd(s: string)
    ensures StripSlashes(s) == "" || StripSlashes(s)[|StripSlashes(s)| - 1] != '/'
  {
    if s != "" {
      StripSlashesEnd(s[..|s| - 1]);
    }
  }

  lemma CleanIsOrigin(part: string)
    requires NoSeparator(part)
    ensures Clean(part) != "" ==> IsOrigin(Clean(part))
  {
    StripLeftSuffix(part);
    StripRightPrefix(StripLeft(part));
    StripSlashesEnd(StripRight(StripLeft(part)));
  }

  /** Cleaning only takes away. */
  lemma CleanShortens(part: string)
    ensures |Clean(part)| <= |part| && (|Clean(part)| == |part| ==> Clean(part) == part)
  {
    StripLeftSuffix(part);
    StripRightPrefix(StripLeft(part));
  }

  /** A collected origin survives a second cleaning exactly when it does not end in white space. */
  lemma CleanAgainIff(o: string)
    requires IsOrigin(o)
    ensures Clean(o) == o <==> !EndsInSpace(o)
  {
    assert StripLeft(o) == o;
    if EndsInSpace(o) {
      StripRightPrefix(o[..|o| - 1]);
      assert |StripRight(o)| < |o|;
    } else {
      assert StripRight(o) == o && StripSlashes(o) == o;
    }
  }

  // ---------------------------------------------------------------- splitting and joining

  lemma {:induction false} PiecesNoSeparator(text: string, piece: string)
    requires NoSeparator(piece)
    ensures forall p :: p in Pieces(text, piece) ==> NoSeparator(p)
    decreases text
  {
    if text != "" {
      if text[0] == '\n' || text[0] == ',' {
        PiecesNoSeparator(text[1..], "");
      } else {
        PiecesNoSeparator(text[1..], piece + [text[0]]);
      }
    }
  }

  lemma {:induction false} PiecesWord(w: string, rest: string, piece: string)
    requires NoSeparator(w)
    ensures Pieces(w + rest, piece) == Pieces(rest, piece + w)
    decreases w
  {
    if w == "" {
      assert w + rest == rest && piece + w == piece;
    } else {
      assert (w + rest)[1..] == w[1..] + rest && (w + rest)[0] == w[0];
      PiecesWord(w[1..], rest, piece + [w[0]]);
      assert piece + [w[0]] + w[1..] == piece + w;
    }
  }

  /** Splitting a saved text gives its origins back. */
  lemma {:induction false} PiecesOfJoined(origins: seq<string>)
    requires origins != [] && forall o :: o in origins ==> NoSeparator(o)
    ensures Pieces(JoinLines(origins), "") == origins
  {
    var first := origins[0];
    if |origins| == 1 {
      PiecesWord(first, "", "");
      assert first + "" == first && "" + first == first;
    } else {
      var rest := JoinLines(origins[1..]);
      PiecesOfJoined(origins[1..]);
      assert JoinLines(origins) == first + ("\n" + rest);
      PiecesWord(first, "\n" + rest, "");
      assert "" + first == first && ("\n" + rest)[1..] == rest;
      assert origins == [first] + origins[1..];
    }
  }

  /** Without commas, joining the pieces gives the text back. */
  lemma {:induction false} JoinedPieces(text: string, piece: string)
    requires ',' !in text
    ensures JoinLines(Pieces(text, piece)) == piece + text && Pieces(text, piece) != []
    decreases text
  {
    if text == "" {
      assert piece + text == piece;
    } else if text[0] == '\n' {
      JoinedPieces(text[1..], "");
      var more := Pieces(text[1..], "");
      assert ([piece] + more)[1..] == more;
      assert text == "\n" + text[1..] && "" + text[1..] == text[1..];
    } else {
      JoinedPieces(text[1..], piece + [text[0]]);
      assert piece + [text[0]] + text[1..] == piece + text;
    }
  }

  lemma {:induction false} NoComma(origins: seq<string>)
    requires forall o :: o in origins ==> NoSeparator(o)
    ensures ',' !in JoinLines(origins)
  {
    if origins != [] {
      assert origins[0] in origins && NoSeparator(origins[0]);
      assert ',' !in origins[0] && ',' !in "\n";
      NoComma(origins[1..]);
    }
  }

  // ---------------------------------------------------------------- the collected list

  ghost predicate AllOrigins(origins: seq<string>) {
    forall o :: o in origins ==> IsOrigin(o)
  }

  lemma DistinctSnoc(origins: seq<string>, o: string)
    requires Distinct(origins) && o !in origins
    ensures Distinct(origins + [o])
  {
    var next := origins + [o];
    assert forall i :: 0 <= i < |origins| ==> next[i] == origins[i] && origins[i] in origins;
  }

  /** Collected origins are origins, pairwise different. */
  lemma {:induction false} CollectOrigins(parts: seq<string>, origins: seq<string>)
    requires forall p :: p in parts ==> NoSeparator(p)
    requires AllOrigins(origins) && Distinct(origins)
    ensures AllOrigins(Collect(parts, origins)) && Distinct(Collect(parts, origins))
  {
    if parts != [] {
      var origin := Clean(parts[0]);
      CleanIsOrigin(parts[0]);
      if origin != "" && origin !in origins {
        DistinctSnoc(origins, origin);
        CollectOrigins(parts[1..], origins + [origin]);
      } else {
        CollectOrigins(parts[1..], origins);
      }
    }
  }

  lemma ListIsOrigins(text: string)
    ensures AllOrigins(OriginsList(text)) && Distinct(OriginsList(text))
  {
    PiecesNoSeparator(text, "");
    CollectOrigins(Pieces(text, ""), []);
  }

  /** A saved text is empty or starts with a visible character: it is never only white space. */
  lemma SavedNotBlank(text: string)
    ensures Saved(text) != "" ==> !Blank(Saved(text))
  {
    if text != "" {
      ListIsOrigins(text);
      var l := OriginsList(text);
      if l != [] {
        assert l[0] in l;
        assert Saved(text)[0] == l[0][0];
      }
    }
  }

  // ---------------------------------------------------------------- saving again

  function Size(l: seq<string>): nat {
    if l == [] then 0 else |l[0]| + 1 + Size(l[1..])
  }

  lemma {:induction false} SizeSnoc(l: seq<string>, o: string)
    ensures Size(l + [o]) == Size(l) + |o| + 1
  {
    if l != [] {
      assert (l + [o])[1..] == l[1..] + [o];
      SizeSnoc(l[1..], o);
    }
  }

  lemma {:induction false} JoinedLength(l: seq<string>)
    ensures l != [] ==> |JoinLines(l)| == Size(l) - 1
  {
    if l != [] {
      JoinedLength(l[1..]);
    }
  }

  lemma {:induction false} CollectClean(parts: seq<string>, origins: seq<string>)
    requires Distinct(origins + parts) && forall p :: p in parts ==> p != "" && Clean(p) == p
    ensures Collect(parts, origins) == origins + parts
  {
    if parts == [] {
      assert origins + parts == origins;
    } else {
      assert (origins + parts)[|origins|] == parts[0];
      assert forall i :: 0 <= i < |origins| ==> (origins + parts)[i] == origins[i];
      assert origins + parts == origins + [parts[0]] + parts[1..];
      assert forall p :: p in parts[1..] ==> p in parts;
      assert parts[0] in parts;
      CollectClean(parts[1..], origins + [parts[0]]);
    }
  }

  /** Collecting never grows, and shrinks if cleaning changes anything. */
  lemma {:induction false} CollectShrinks(parts: seq<string>, origins: seq<string>)
    ensures Size(Collect(parts, origins)) <= Size(origins) + Size(parts)
    ensures (exists p :: p in parts && Clean(p) != p) ==> Size(Collect(parts, origins)) < Size(origins) + Size(parts)
  {
    if parts != [] {
      var origin := Clean(parts[0]);
      CleanShortens(parts[0]);
      if origin != "" && origin !in origins {
        SizeSnoc(origins, origin);
        CollectShrinks(parts[1..], origins + [origin]);
      } else {
        CollectShrinks(parts[1..], origins);
      }
    }
  }

  ghost predicate NoneEndsInSpace(origins: seq<string>) {
    forall o :: o in origins ==> !EndsInSpace(o)
  }

  /** A second save starts from the origins of the first. */
  lemma SavedTwice(text: string)
    ensures Saved(Saved(text)) == JoinLines(Collect(OriginsList(text), []))
  {
    ListIsOrigins(text);
    var l := OriginsList(text);
    if text == "" {
      assert Clean("") == "";
      assert [""][1..] == [];
      assert l == [];
    } else if l != [] {
      assert l[0] in l;
      assert Saved(text) != "";
      PiecesOfJoined(l);
    }
  }

  /** Saving again changes nothing exactly when no collected origin ends in white space. */
  lemma SaveTwiceIff(text: string)
    ensures Saved(Saved(text)) == Saved(text) <==> NoneEndsInSpace(OriginsList(text))
  {
    var l := OriginsList(text);
    var again := Collect(l, []);
    ListIsOrigins(text);
    SavedTwice(text);
    forall o | o in l
      ensures Clean(o) == o <==> !EndsInSpace(o)
    {
      CleanAgainIff(o);
    }
    assert Saved(text) == JoinLines(l) by {
      SavedOfEmpty();
    }
    assert [] + l == l;
    if NoneEndsInSpace(l) {
      CollectClean(l, []);
    } else {
      CollectShrinks(l, []);
      JoinedLength(l);
      JoinedLength(again);
    }
  }

  lemma SavedOfEmpty()
    ensures OriginsList("") == []
  {
    assert Clean("") == "" && [""][1..] == [];
  }

  /** The texts a save leaves alone: lines without commas, no two alike, each an origin without white
      space at its end. */
  ghost predicate Tidy(text: string) {
    text == ""
    || (',' !in text && Distinct(Pieces(text, "")) && AllOrigins(Pieces(text, "")) && NoneEndsInSpace(Pieces(text, "")))
  }

  lemma SavedIffTidy(text: string)
    ensures Saved(text) == text <==> Tidy(text)
  {
    var pieces := Pieces(text, "");
    if text != "" && Tidy(text) {
      forall o | o in pieces
        ensures o != "" && Clean(o) == o
      {
        CleanAgainIff(o);
      }
      assert [] + pieces == pieces && "" + text == text;
      CollectClean(pieces, []);
      JoinedPieces(text, "");
    }
    if text != "" && Saved(text) == text {
      var l := OriginsList(text);
      ListIsOrigins(text);
      SaveTwiceIff(text);
      PiecesOfJoined(l);
      NoComma(l);
    }
  }

  /** A list the form accepts and two saves rewrite differently: white space before a trailing slash
      survives the first save, not the second. */
  lemma SaveTwiceDiffers()
    ensures Saved("http://a /") == "http://a " && Saved("http://a ") == "http://a"
  {
    SavedPiece("http://a /");
    SavedPiece("http://a ");
    CleanExamples();
  }

  lemma SavedPiece(text: string)
    requires text != "" && NoSeparator(text)
    ensures Saved(text) == Clean(text)
  {
    var origin := Clean(text);
    PiecesWord(text, "", "");
    assert text + "" == text && "" + text == text;
    assert [text][1..] == [];
    assert [] + [origin] == [origin];
    assert Collect([text], []) == if origin != "" then [origin] else [];
  }

  lemma CleanExamples()
    ensures Clean("http://a /") == "http://a " && Clean("http://a ") == "http://a"
  {
    var t := "http://a /";
    assert t[0] == 'h' && t[9] == '/' && t[..9] == "http://a ";
    assert StripLeft(t) == t && StripRight(t) == t;
    assert StripSlashes(t) == StripSlashes("http://a ") == "http://a ";
    var u := "http://a ";
    assert u[0] == 'h' && u[8] == ' ' && u[..8] == "http://a";
    assert StripLeft(u) == u;
    assert StripRight(u) == StripRight("http://a") == "http://a";
    assert StripSlashes("http://a") == "http://a";
  }
}
