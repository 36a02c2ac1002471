/** `EmbeddingBuilder.chunk_doc` (rag/build_embeddings.py): overlapping sentence chunks and their offsets. */
module Chunker {
  import opened Prelude
  import opened PyText

  datatype Config = Config(chunkSize: int, overlap: nat)

  /** A page after `sent_tokenize`: its sentences and the length of its raw text. */
  datatype Page = Page(number: int, sentences: seq<string>, textLength: nat)

  /** A metadata item; the chunk text is `Join(sents)`. */
  datatype Piece = Piece(sents: seq<string>, start: int, end: int, page: int)

  function SumLengths(sents: seq<string>): nat {
    if sents == [] then 0 else SumLengths(sents[..|sents| - 1]) + |sents[|sents| - 1]|
  }

  /** `sum(len(s) for s in current_chunk) + len(current_chunk)`. */
  function Weight(sents: seq<string>): nat {
    SumLengths(sents) + |sents|
  }

  /** How many sentences of an emitted chunk the next one repeats. */
  function Carry(sents: seq<string>, overlap: nat): (k: nat)
    ensures k <= |sents|
  {
    Min(overlap, |sents|)
  }

  function Tail(sents: seq<string>, k: nat): seq<string>
    requires k <= |sents|
  {
    sents[|sents| - k..]
  }

  function MakePiece(sents: seq<string>, start: int, page: int): Piece {
    Piece(sents, start, start + |Join(sents)|, page)
  }

  /** How far `char_start` moves after a chunk was emitted. */
  function Advance(sents: seq<string>, cfg: Config): nat {
    if cfg.overlap > 0 then |Join(sents[..|sents| - Carry(sents, cfg.overlap)])| else |Join(sents)|
  }

  /** The pieces of one page: `current` is the open chunk, `rest` the sentences still to come. */
  function Pieces(current: seq<string>, start: int, rest: seq<string>, page: int, cfg: Config): seq<Piece>
    decreases |rest|
  {
    if rest == [] then
      if current == [] then [] else [MakePiece(current, start, page)]
    else
      var grown := current + [rest[0]];
      if Weight(grown) >= cfg.chunkSize then
        [MakePiece(grown, start, page)]
        + Pieces(Tail(grown, Carry(grown, cfg.overlap)), start + Advance(grown, cfg), rest[1..], page, cfg)
      else Pieces(grown, start, rest[1..], page, cfg)
  }

  function PagePieces(p: Page, offset: int, cfg: Config): seq<Piece> {
    Pieces([], offset, p.sentences, p.number, cfg)
  }

  function DocPieces(pages: seq<Page>, offset: int, cfg: Config): seq<Piece> {
    if pages == [] then []
    else PagePieces(pages[0], offset, cfg) + DocPieces(pages[1..], offset + pages[0].textLength + 1, cfg)
  }

  function Texts(pieces: seq<Piece>): seq<string> {
    seq(|pieces|, i requires 0 <= i < |pieces| => Join(pieces[i].sents))
  }

  /** The recursion of `Pieces`, one sentence that does not fill the chunk. */
  lemma PiecesGrow(current: seq<string>, start: int, rest: seq<string>, page: int, cfg: Config)
    requires rest != [] && Weight(current + [rest[0]]) < cfg.chunkSize
    ensures Pieces(current, start, rest, page, cfg) == Pieces(current + [rest[0]], start, rest[1..], page, cfg)
  {
  }

  /** The recursion of `Pieces`, one sentence that does. */
  lemma PiecesEmit(current: seq<string>, start: int, rest: seq<string>, page: int, cfg: Config)
    requires rest != [] && Weight(current + [rest[0]]) >= cfg.chunkSize
    ensures var grown := current + [rest[0]];
      Pieces(current, start, rest, page, cfg)
      == [MakePiece(grown, start, page)]
         + Pieces(Tail(grown, Carry(grown, cfg.overlap)), start + Advance(grown, cfg), rest[1..], page, cfg)
  {
  }

  /** `todo` is what the open chunk and the sentences from j on will still produce. */
  predicate StillToDo(todo: seq<Piece>, current: seq<string>, start: int, sentences: seq<string>, j: nat, page: int, cfg: Config)
    requires j <= |sentences|
  {
    todo == Pieces(current, start, sentences[j..], page, cfg)
  }

  /** One more sentence that does not fill the chunk. */
  lemma GrowStep(todo: seq<Piece>, current: seq<string>, start: int, sentences: seq<string>, j: nat, page: int, cfg: Config)
    requires j < |sentences| && StillToDo(todo, current, start, sentences, j, page, cfg)
    requires Weight(current + [sentences[j]]) < cfg.chunkSize
    ensures StillToDo(todo, current + [sentences[j]], start, sentences, j + 1, page, cfg)
  {
    assert sentences[j..][0] == sentences[j] && sentences[j..][1..] == sentences[j + 1..];
    PiecesGrow(current, start, sentences[j..], page, cfg);
  }

  /** One more sentence that does. */
  lemma EmitStep(todo: seq<Piece>, current: seq<string>, start: int, sentences: seq<string>, j: nat, page: int, cfg: Config)
    requires j < |sentences| && StillToDo(todo, current, start, sentences, j, page, cfg)
    requires Weight(current + [sentences[j]]) >= cfg.chunkSize
    ensures var grown := current + [sentences[j]];
      todo != [] && todo[0] == MakePiece(grown, start, page)
      && StillToDo(todo[1..], Tail(grown, Carry(grown, cfg.overlap)), start + Advance(grown, cfg), sentences, j + 1, page, cfg)
  {
    assert sentences[j..][0] == sentences[j] && sentences[j..][1..] == sentences[j + 1..];
    PiecesEmit(current, start, sentences[j..], page, cfg);
  }

  lemma LastStep(todo: seq<Piece>, current: seq<string>, start: int, sentences: seq<string>, page: int, cfg: Config)
    requires StillToDo(todo, current, start, sentences, |sentences|, page, cfg)
    ensures todo == if current == [] then [] else [MakePiece(current, start, page)]
  {
    assert sentences[|sentences|..] == [];
  }

  lemma MoveHead(done: seq<Piece>, todo: seq<Piece>)
    requires todo != []
    ensures (done + [todo[0]]) + todo[1..] == done + todo
  {
  }

  lemma DocStep(pages: seq<Page>, i: nat, offset: int, cfg: Config)
    requires i < |pages|
    ensures DocPieces(pages[i..], offset, cfg)
      == PagePieces(pages[i], offset, cfg) + DocPieces(pages[i + 1..], offset + pages[i].textLength + 1, cfg)
  {
    assert pages[i..][0] == pages[i] && pages[i..][1..] == pages[i + 1..];
  }

  method ChunkDoc(pages: seq<Page>, cfg: Config) returns (chunks: seq<string>, metadata: seq<Piece>)
    ensures metadata == DocPieces(pages, 0, cfg)
    ensures chunks == Texts(metadata)
  {
    hide Join, PagePieces;
    chunks, metadata := [], [];
    var docOffset := 0;
    for i := 0 to |pages|
      invariant metadata + DocPieces(pages[i..], docOffset, cfg) == DocPieces(pages, 0, cfg)
      invariant chunks == Texts(metadata)
    {
      var pageChunks, pageMetadata := ChunkPage(pages[i], docOffset, cfg);
      DocStep(pages, i, docOffset, cfg);
      Assoc(metadata, pageMetadata, DocPieces(pages[i + 1..], docOffset + pages[i].textLength + 1, cfg));
      TextsAppend(metadata, pageMetadata);
      chunks := chunks + pageChunks;
      metadata := metadata + pageMetadata;
      docOffset := docOffset + pages[i].textLength + 1;
    }
    assert metadata + [] == metadata;
  }

  /** The loop over one page's sentences. */
  method ChunkPage(page: Page, offset: int, cfg: Config) returns (chunks: seq<string>, metadata: seq<Piece>)
    ensures metadata == PagePieces(page, offset, cfg)
    ensures chunks == Texts(metadata)
  {
    hide Join;
    chunks, metadata := [], [];
    var sentences := page.sentences;
    var current: seq<string> := [];
    var start := offset;
    ghost var todo := PagePieces(page, offset, cfg);
    assert sentences[0..] == sentences;
    for j := 0 to |sentences|
      invariant StillToDo(todo, current, start, sentences, j, page.number, cfg)
      invariant metadata + todo == PagePieces(page, offset, cfg)
      invariant chunks == Texts(metadata)
    {
      ghost var before, from := current, start;
      current := current + [sentences[j]];
      var length := SumLengths(current) + |current|;
      if length >= cfg.chunkSize {
        EmitStep(todo, before, from, sentences, j, page.number, cfg);
        MoveHead(metadata, todo);
        var text := Join(current);
        var piece := Piece(current, start, start + |text|, page.number);
        assert piece == todo[0];
        TextsSnoc(metadata, piece);
        chunks := chunks + [text];
        metadata := metadata + [piece];
        todo := todo[1..];
        var k := Min(cfg.overlap, |current|);
        start := start + (if cfg.overlap > 0 then |Join(current[..|current| - k])| else |text|);
        current := current[|current| - k..];
      } else {
        GrowStep(todo, before, from, sentences, j, page.number, cfg);
      }
    }
    LastStep(todo, current, start, sentences, page.number, cfg);
    if |current| > 0 {
      var text := Join(current);
      var piece := Piece(current, start, start + |text|, page.number);
      TextsSnoc(metadata, piece);
      chunks := chunks + [text];
      metadata := metadata + [piece];
    } else {
      assert metadata + [] == metadata;
    }
  }

  lemma TextsSnoc(a: seq<Piece>, p: Piece)
    ensures Texts(a + [p]) == Texts(a) + [Join(p.sents)]
  {
  }

  lemma TextsAppend(a: seq<Piece>, b: seq<Piece>)
    ensures Texts(a + b) == Texts(a) + Texts(b)
  {
  }

  // ---------------------------------------------------------------- recovering the sentences

  /** The sentences of the pieces without the carried prefixes; `k` is the carry into the first. */
  function Recovered(pieces: seq<Piece>, k: nat, cfg: Config): seq<string> {
    if pieces == [] then []
    else Recovered'(pieces[0], k) + Recovered(pieces[1..], Carry(pieces[0].sents, cfg.overlap), cfg)
  }

  function Recovered'(p: Piece, k: nat): seq<string> {
    if k <= |p.sents| then p.sents[k..] else []
  }

  /** q begins with the last min(overlap, size) sentences of p. */
  predicate Repeats(p: Piece, q: Piece, cfg: Config) {
    Tail(p.sents, Carry(p.sents, cfg.overlap)) <= q.sents
  }

  /** Each piece repeats the end of the one before it. */
  predicate Chained(pieces: seq<Piece>, cfg: Config) {
    |pieces| < 2 || (Repeats(pieces[0], pieces[1], cfg) && Chained(pieces[1..], cfg))
  }

  lemma {:induction false} FirstPieceExtends(current: seq<string>, start: int, rest: seq<string>, page: int, cfg: Config)
    ensures var ps := Pieces(current, start, rest, page, cfg);
      (ps == [] <==> current == [] && rest == [])
      && (ps != [] ==> current <= ps[0].sents)
    decreases |rest|
  {
    if rest != [] {
      var grown := current + [rest[0]];
      if Weight(grown) < cfg.chunkSize {
        FirstPieceExtends(grown, start, rest[1..], page, cfg);
      }
    }
  }

  lemma RecoverEmit(ps: seq<Piece>, carried: seq<string>, added: seq<string>, rest: seq<string>, cfg: Config)
    requires ps != [] && ps[0].sents == carried + added
    requires Recovered(ps[1..], Carry(ps[0].sents, cfg.overlap), cfg) == rest
    ensures Recovered(ps, |carried|, cfg) == added + rest
  {
    assert (carried + added)[|carried|..] == added;
  }

  lemma MoveOne(a: seq<string>, rest: seq<string>)
    requires rest != []
    ensures (a + [rest[0]]) + rest[1..] == a + rest
  {
  }

  /** The open chunk is what was carried over and what was added since. */
  lemma {:induction false} PiecesRecover(ps: seq<Piece>, carried: seq<string>, added: seq<string>, start: int, rest: seq<string>,
                                         page: int, cfg: Config)
    requires ps == Pieces(carried + added, start, rest, page, cfg)
    ensures Recovered(ps, |carried|, cfg) == added + rest
    decreases |rest|
  {
    hide Join;
    var current := carried + added;
    if rest == [] {
      if current != [] {
        RecoverEmit(ps, carried, added, [], cfg);
      }
    } else {
      var grown := current + [rest[0]];
      var added' := added + [rest[0]];
      MoveOne(added, rest);
      assert grown == carried + added';
      if Weight(grown) >= cfg.chunkSize {
        var open := Tail(grown, Carry(grown, cfg.overlap));
        PiecesEmit(current, start, rest, page, cfg);
        assert open + [] == open && [] + rest[1..] == rest[1..];
        PiecesRecover(ps[1..], open, [], start + Advance(grown, cfg), rest[1..], page, cfg);
        RecoverEmit(ps, carried, added', rest[1..], cfg);
      } else {
        PiecesGrow(current, start, rest, page, cfg);
        PiecesRecover(ps, carried, added', start, rest[1..], page, cfg);
      }
    }
  }

  lemma {:induction false} ChainedCons(p: Piece, more: seq<Piece>, cfg: Config)
    requires Chained(more, cfg) && (more != [] ==> Repeats(p, more[0], cfg))
    ensures Chained([p] + more, cfg)
  {
    assert ([p] + more)[1..] == more;
  }

  lemma {:induction false} PiecesChained(current: seq<string>, start: int, rest: seq<string>, page: int, cfg: Config)
    ensures Chained(Pieces(current, start, rest, page, cfg), cfg)
    decreases |rest|
  {
    if rest != [] {
      var grown := current + [rest[0]];
      if Weight(grown) >= cfg.chunkSize {
        PiecesEmit(current, start, rest, page, cfg);
        var open := Tail(grown, Carry(grown, cfg.overlap));
        var start' := start + Advance(grown, cfg);
        PiecesChained(open, start', rest[1..], page, cfg);
        FirstPieceExtends(open, start', rest[1..], page, cfg);
        ChainedCons(MakePiece(grown, start, page), Pieces(open, start', rest[1..], page, cfg), cfg);
      } else {
        PiecesGrow(current, start, rest, page, cfg);
        PiecesChained(grown, start, rest[1..], page, cfg);
      }
    }
  }

  /** A page's sentences can be read back from its chunks: each chunk repeats the end of the previous
      one (ChunksOverlap), and dropping those repetitions and concatenating gives the page. */
  lemma {:induction false} SentencesRecoverable(p: Page, offset: int, cfg: Config)
    ensures Recovered(PagePieces(p, offset, cfg), 0, cfg) == p.sentences
  {
    var none: seq<string> := [];
    assert none + none == none && none + p.sentences == p.sentences;
    PiecesRecover(PagePieces(p, offset, cfg), none, none, offset, p.sentences, p.number, cfg);
  }

  lemma {:induction false} ChunksOverlap(p: Page, offset: int, cfg: Config)
    ensures Chained(PagePieces(p, offset, cfg), cfg)
  {
    PiecesChained([], offset, p.sentences, p.number, cfg);
  }

  // ---------------------------------------------------------------- sizes

  /** The length the loop compares is that of the chunk's text, plus one. */
  lemma {:induction false} WeightIsLength(sents: seq<string>)
    ensures sents != [] ==> Weight(sents) == |Join(sents)| + 1
    ensures sents == [] ==> Weight(sents) == 0
  {
    if |sents| > 1 {
      var init, last := sents[..|sents| - 1], sents[|sents| - 1];
      WeightIsLength(init);
      JoinAppend(init, [last]);
      assert sents == init + [last];
    } else if |sents| == 1 {
      assert sents[..|sents| - 1] == [] && SumLengths([]) == 0;
    }
  }

  /** `k` sentences of the first piece are carried over. Every piece but the last reaches the chunk
      size, and had not reached it one sentence earlier unless it was then nothing but carry. The last
      one may be the page's remainder: below the size, or nothing but carry. */
  predicate WellSized(pieces: seq<Piece>, k: nat, cfg: Config) {
    if pieces == [] then true
    else
      var s := pieces[0].sents;
      s != [] && pieces[0].end - pieces[0].start == |Join(s)|
      && (if Weight(s) >= cfg.chunkSize && k < |s| then Weight(s[..|s| - 1]) < cfg.chunkSize || |s| - 1 == k
          else |pieces| == 1)
      && WellSized(pieces[1..], Carry(s, cfg.overlap), cfg)
  }

  lemma WellSizedEmit(ps: seq<Piece>, current: seq<string>, s: string, k: nat, start: int, page: int, cfg: Config)
    requires k <= |current| && (Weight(current) < cfg.chunkSize || |current| == k)
    requires ps != [] && ps[0] == MakePiece(current + [s], start, page) && Weight(current + [s]) >= cfg.chunkSize
    requires WellSized(ps[1..], Carry(current + [s], cfg.overlap), cfg)
    ensures WellSized(ps, k, cfg)
  {
    var grown := current + [s];
    assert grown[..|grown| - 1] == current;
  }

  lemma {:induction false} PiecesWellSized(ps: seq<Piece>, current: seq<string>, k: nat, start: int, rest: seq<string>,
                                           page: int, cfg: Config)
    requires ps == Pieces(current, start, rest, page, cfg)
    requires k <= |current| && (Weight(current) < cfg.chunkSize || |current| == k)
    ensures WellSized(ps, k, cfg)
    decreases |rest|
  {
    hide Join, SumLengths;
    if rest != [] {
      var grown := current + [rest[0]];
      if Weight(grown) >= cfg.chunkSize {
        var open := Tail(grown, Carry(grown, cfg.overlap));
        PiecesEmit(current, start, rest, page, cfg);
        PiecesWellSized(ps[1..], open, |open|, start + Advance(grown, cfg), rest[1..], page, cfg);
        WellSizedEmit(ps, current, rest[0], k, start, page, cfg);
      } else {
        PiecesGrow(current, start, rest, page, cfg);
        PiecesWellSized(ps, grown, k, start, rest[1..], page, cfg);
      }
    }
  }

  lemma {:induction false} ChunkSizes(p: Page, offset: int, cfg: Config)
    ensures WellSized(PagePieces(p, offset, cfg), 0, cfg)
  {
    PiecesWellSized(PagePieces(p, offset, cfg), [], 0, offset, p.sentences, p.number, cfg);
  }

  // ---------------------------------------------------------------- offsets

  /** Where the sentence after `before` begins in the page written as `" ".join(sentences)`. */
  function Position(before: seq<string>): nat {
    if before == [] then 0 else |Join(before)| + 1
  }

  /** The sentences of a chunk that the next one does not repeat. */
  function Released(sents: seq<string>, cfg: Config): seq<string> {
    sents[..|sents| - Carry(sents, cfg.overlap)]
  }

  /** A chunk with more than `overlap` sentences adds one character. */
  function MoreDrift(drift: nat, sents: seq<string>, cfg: Config): nat {
    drift + if |sents| > cfg.overlap then 1 else 0
  }

  /** `before` are the page's sentences in front of the piece, `drift` the number of earlier pieces with
      more than `overlap` sentences. The recorded start is the true position less the drift. */
  predicate Drifts(pieces: seq<Piece>, all: seq<string>, before: seq<string>, drift: nat, offset: int, cfg: Config) {
    pieces == []
    || (var p := pieces[0];
        before + p.sents <= all
        && p.start == offset + Position(before) - drift
        && p.end == p.start + |Join(p.sents)|
        && Drifts(pieces[1..], all, before + Released(p.sents, cfg), MoreDrift(drift, p.sents, cfg), offset, cfg))
  }

  lemma {:induction false} JoinAppend(a: seq<string>, b: seq<string>)
    requires a != [] && b != []
    ensures Join(a + b) == Join(a) + " " + Join(b)
  {
    if |a| == 1 {
      assert (a + b)[1..] == b;
    } else {
      JoinAppend(a[1..], b);
      assert (a + b)[1..] == a[1..] + b;
      assert Join(a + b) == a[0] + " " + (Join(a[1..]) + " " + Join(b));
    }
  }

  /** Moving past some sentences moves the true position by their joined length plus one space. */
  lemma PositionAdvances(before: seq<string>, more: seq<string>)
    requires more != []
    ensures Position(before + more) == Position(before) + |Join(more)| + 1
  {
    if before != [] {
      JoinAppend(before, more);
    } else {
      assert before + more == more;
    }
  }

  /** The next chunk's recorded start is its true position less the drift so far. */
  lemma NextStart(before: seq<string>, grown: seq<string>, start: int, drift: nat, offset: int, cfg: Config)
    requires grown != [] && start == offset + Position(before) - drift
    ensures start + Advance(grown, cfg) == offset + Position(before + Released(grown, cfg)) - MoreDrift(drift, grown, cfg)
  {
    assert cfg.overlap == 0 ==> Released(grown, cfg) == grown;
    if |grown| > cfg.overlap {
      PositionAdvances(before, Released(grown, cfg));
    } else {
      assert before + Released(grown, cfg) == before;
    }
  }

  /** The open chunk follows `before` in the page and is followed by `rest`; its recorded start drifts. */
  predicate DriftsAt(all: seq<string>, before: seq<string>, drift: nat, offset: int, current: seq<string>, start: int, rest: seq<string>) {
    all == before + current + rest && start == offset + Position(before) - drift
  }

  lemma DriftsGrow(all: seq<string>, before: seq<string>, drift: nat, offset: int, current: seq<string>, start: int, rest: seq<string>)
    requires DriftsAt(all, before, drift, offset, current, start, rest) && rest != []
    ensures DriftsAt(all, before, drift, offset, current + [rest[0]], start, rest[1..])
  {
    assert rest == [rest[0]] + rest[1..];
    assert before + (current + [rest[0]]) + rest[1..] == before + current + ([rest[0]] + rest[1..]);
  }

  lemma AfterEmit(all: seq<string>, before: seq<string>, drift: nat, offset: int, grown: seq<string>, start: int, rest: seq<string>, cfg: Config)
    requires DriftsAt(all, before, drift, offset, grown, start, rest) && grown != []
    ensures DriftsAt(all, before + Released(grown, cfg), MoreDrift(drift, grown, cfg), offset,
                     Tail(grown, Carry(grown, cfg.overlap)), start + Advance(grown, cfg), rest)
  {
    var open := Tail(grown, Carry(grown, cfg.overlap));
    assert grown == Released(grown, cfg) + open;
    assert (before + Released(grown, cfg)) + open + rest == before + (Released(grown, cfg) + open) + rest;
    NextStart(before, grown, start, drift, offset, cfg);
  }

  /** A chunk in front of pieces that drift from its carried sentences on. */
  lemma DriftsEmit(ps: seq<Piece>, grown: seq<string>, start: int, rest: seq<string>, page: int, cfg: Config,
                   all: seq<string>, before: seq<string>, drift: nat, offset: int)
    requires DriftsAt(all, before, drift, offset, grown, start, rest)
    requires ps != [] && ps[0] == MakePiece(grown, start, page)
    requires Drifts(ps[1..], all, before + Released(grown, cfg), MoreDrift(drift, grown, cfg), offset, cfg)
    ensures Drifts(ps, all, before, drift, offset, cfg)
  {
    assert before + grown <= all;
  }

  lemma {:induction false} PiecesDrift(ps: seq<Piece>, current: seq<string>, start: int, rest: seq<string>, page: int, cfg: Config,
                                       all: seq<string>, before: seq<string>, drift: nat, offset: int)
    requires ps == Pieces(current, start, rest, page, cfg)
    requires DriftsAt(all, before, drift, offset, current, start, rest)
    ensures Drifts(ps, all, before, drift, offset, cfg)
    decreases |rest|
  {
    if rest == [] {
      if current != [] {
        DriftsEmit(ps, current, start, rest, page, cfg, all, before, drift, offset);
      }
    } else {
      var grown := current + [rest[0]];
      DriftsGrow(all, before, drift, offset, current, start, rest);
      if Weight(grown) >= cfg.chunkSize {
        PiecesEmit(current, start, rest, page, cfg);
        AfterEmit(all, before, drift, offset, grown, start, rest[1..], cfg);
        PiecesDrift(ps[1..], Tail(grown, Carry(grown, cfg.overlap)), start + Advance(grown, cfg), rest[1..], page, cfg,
                    all, before + Released(grown, cfg), MoreDrift(drift, grown, cfg), offset);
        DriftsEmit(ps, grown, start, rest[1..], page, cfg, all, before, drift, offset);
      } else {
        PiecesGrow(current, start, rest, page, cfg);
        PiecesDrift(ps, grown, start, rest[1..], page, cfg, all, before, drift, offset);
      }
    }
  }

  /** On every page the recorded offsets lag behind the true ones by exactly one character for each
      earlier chunk with more than `overlap` sentences. */
  lemma {:induction false} OffsetsDrift(p: Page, offset: int, cfg: Config)
    ensures Drifts(PagePieces(p, offset, cfg), p.sentences, [], 0, offset, cfg)
  {
    assert [] + [] + p.sentences == p.sentences;
    PiecesDrift(PagePieces(p, offset, cfg), [], offset, p.sentences, p.number, cfg, p.sentences, [], 0, offset);
  }

  /** From some start on, the starts never go back. */
  predicate Ascending(pieces: seq<Piece>, from: int) {
    pieces == [] || (from <= pieces[0].start && Ascending(pieces[1..], pieces[0].start))
  }

  lemma {:induction false} AscendingWeaken(pieces: seq<Piece>, low: int, from: int)
    requires low <= from && Ascending(pieces, from)
    ensures Ascending(pieces, low)
  {
  }

  lemma AscendingCons(p: Piece, more: seq<Piece>, next: int)
    requires p.start <= next && Ascending(more, next)
    ensures Ascending([p] + more, p.start)
  {
    AscendingWeaken(more, p.start, next);
    assert ([p] + more)[1..] == more;
  }

  /** Starts never go back within a page. */
  lemma {:induction false} StartsMonotone(current: seq<string>, start: int, rest: seq<string>, page: int, cfg: Config)
    ensures Ascending(Pieces(current, start, rest, page, cfg), start)
    decreases |rest|
  {
    if rest == [] {
      if current != [] {
        assert [MakePiece(current, start, page)][1..] == [];
      }
    } else {
      var grown := current + [rest[0]];
      if Weight(grown) >= cfg.chunkSize {
        PiecesEmit(current, start, rest, page, cfg);
        var open := Tail(grown, Carry(grown, cfg.overlap));
        var next := start + Advance(grown, cfg);
        StartsMonotone(open, next, rest[1..], page, cfg);
        AscendingCons(MakePiece(grown, start, page), Pieces(open, next, rest[1..], page, cfg), next);
      } else {
        PiecesGrow(current, start, rest, page, cfg);
        StartsMonotone(grown, start, rest[1..], page, cfg);
      }
    }
  }

  predicate AllOnPage(pieces: seq<Piece>, page: int) {
    forall i :: 0 <= i < |pieces| ==> pieces[i].page == page
  }

  lemma OnPageCons(ps: seq<Piece>, page: int)
    requires ps != [] && ps[0].page == page && AllOnPage(ps[1..], page)
    ensures AllOnPage(ps, page)
  {
    assert forall i :: 1 <= i < |ps| ==> ps[i] == ps[1..][i - 1];
  }

  lemma {:induction false} PiecesOnPage(ps: seq<Piece>, current: seq<string>, start: int, rest: seq<string>, page: int, cfg: Config)
    requires ps == Pieces(current, start, rest, page, cfg)
    ensures AllOnPage(ps, page)
    decreases |rest|
  {
    hide Join, SumLengths, AllOnPage;
    if rest == [] {
      LastOnPage(ps, current, start, page, cfg);
    } else {
      var grown := current + [rest[0]];
      if Weight(grown) >= cfg.chunkSize {
        PiecesEmit(current, start, rest, page, cfg);
        PiecesOnPage(ps[1..], Tail(grown, Carry(grown, cfg.overlap)), start + Advance(grown, cfg), rest[1..], page, cfg);
        OnPageCons(ps, page);
      } else {
        PiecesGrow(current, start, rest, page, cfg);
        PiecesOnPage(ps, grown, start, rest[1..], page, cfg);
      }
    }
  }

  lemma LastOnPage(ps: seq<Piece>, current: seq<string>, start: int, page: int, cfg: Config)
    requires ps == Pieces(current, start, [], page, cfg)
    ensures AllOnPage(ps, page)
  {
    hide Join;
  }

  /** Every metadata item names the page its chunk is from. */
  lemma PagesRecorded(p: Page, offset: int, cfg: Config)
    ensures AllOnPage(PagePieces(p, offset, cfg), p.number)
  {
    PiecesOnPage(PagePieces(p, offset, cfg), [], offset, p.sentences, p.number, cfg);
  }

  ghost predicate NoSentences(pages: seq<Page>) {
    forall i :: 0 <= i < |pages| ==> pages[i].sentences == []
  }

  lemma NoSentencesCons(pages: seq<Page>)
    requires pages != []
    ensures NoSentences(pages) <==> pages[0].sentences == [] && NoSentences(pages[1..])
  {
    if pages[0].sentences == [] && NoSentences(pages[1..]) {
      assert forall i :: 1 <= i < |pages| ==> pages[i] == pages[1..][i - 1];
    }
    if NoSentences(pages) {
      assert forall i :: 0 <= i < |pages| - 1 ==> pages[1..][i] == pages[i + 1];
    }
  }

  /** There is no chunk at all exactly when no page has a sentence. */
  lemma {:induction false} NoChunksIffNoSentences(pages: seq<Page>, offset: int, cfg: Config)
    ensures DocPieces(pages, offset, cfg) == [] <==> NoSentences(pages)
  {
    if pages != [] {
      NoSentencesCons(pages);
      FirstPieceExtends([], offset, pages[0].sentences, pages[0].number, cfg);
      NoChunksIffNoSentences(pages[1..], offset + pages[0].textLength + 1, cfg);
    }
  }
}
