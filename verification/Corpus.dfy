/** The knowledge corpus: three parallel files rewritten one at a time
    (chat/document_pipeline.py), and the rows they stand for. */
module Corpus {
  import opened Prelude

  /** A metadata `doc_id`: `uploaded-document-<pk>` or the name of an offline PDF. */
  datatype DocId = Uploaded(pk: int) | External(name: string)

  /** A metadata item; `documentId` is absent on rows the offline builder wrote. */
  datatype Meta = Meta(
    docId: DocId,
    documentId: Option<int>,
    title: string,
    sourceType: string,
    url: Option<string>,
    page: int,
    span: (int, int))

  type Vector = seq<real>

  /** A two-dimensional array: row vectors of one width, the width kept even without rows. */
  datatype Matrix = Matrix(width: nat, rows: seq<Vector>)

  /** One artifact on disk. A torn file is there but cannot be parsed: a write in place that died. */
  datatype File<+T> = Absent | Torn | Whole(value: T)

  datatype Files = Files(chunks: File<seq<string>>, meta: File<seq<Meta>>, emb: File<Matrix>)

  const NO_FILES := Files(Absent, Absent, Absent)

  predicate AnyTorn(f: Files) {
    f.chunks.Torn? || f.meta.Torn? || f.emb.Torn?
  }

  datatype Document = Document(pk: int, title: string, sourceType: string, sourceUrl: string)

  /** What chunking and embedding one document produced. */
  datatype Fresh = Fresh(chunks: seq<string>, meta: seq<Meta>, emb: Matrix)

  /** `chunk_doc` returns as many metadata items as chunks, all of this document; `embed_chunks`
      returns one vector a chunk; an empty result never gets this far. */
  predicate FreshFor(f: Fresh, doc: Document) {
    |f.chunks| == |f.meta| == |f.emb.rows| > 0
    && forall i :: 0 <= i < |f.meta| ==> f.meta[i].docId == Uploaded(doc.pk)
  }

  datatype Error = Unreadable | Inconsistent | IndexOutOfRange | WidthMismatch | MissingFile

  // ---------------------------------------------------------------- rows

  datatype Row = Row(chunk: string, meta: Meta, vector: Vector)

  /** All three files are there, of one length, with at least one row. */
  predicate Aligned(f: Files) {
    f.chunks.Whole? && f.meta.Whole? && f.emb.Whole?
    && |f.chunks.value| == |f.meta.value| == |f.emb.value.rows| > 0
  }

  predicate Sound(f: Files) {
    f == NO_FILES || Aligned(f)
  }

  function Zip(chunks: seq<string>, meta: seq<Meta>, vectors: seq<Vector>): (rows: seq<Row>)
    requires |chunks| == |meta| == |vectors|
    ensures |rows| == |chunks|
    ensures forall i :: 0 <= i < |rows| ==> rows[i] == Row(chunks[i], meta[i], vectors[i])
  {
    seq(|chunks|, i requires 0 <= i < |chunks| => Row(chunks[i], meta[i], vectors[i]))
  }

  /** The abstract corpus. */
  function Rows(f: Files): seq<Row>
    requires Sound(f)
  {
    if f == NO_FILES then [] else Zip(f.chunks.value, f.meta.value, f.emb.value.rows)
  }

  function IsOf(d: DocId): Row -> bool {
    (r: Row) => r.meta.docId == d
  }

  function IsNotOf(d: DocId): Row -> bool {
    (r: Row) => r.meta.docId != d
  }

  /** The chunk list of one document. */
  function RowsOf(rows: seq<Row>, d: DocId): seq<Row> {
    Filter(rows, IsOf(d))
  }

  function Without(rows: seq<Row>, d: DocId): seq<Row> {
    Filter(rows, IsNotOf(d))
  }

  /** As a map from document to chunk list, replacing one document's rows is an update at one key. */
  lemma ReplacingIsUpdate(rows: seq<Row>, key: DocId, added: seq<Row>, d: DocId)
    requires forall r :: r in added ==> r.meta.docId == key
    ensures RowsOf(Without(rows, key) + added, d) == if d == key then added else RowsOf(rows, d)
  {
    FilterAppend(Without(rows, key), added, IsOf(d));
    if d == key {
      FilterNone(Without(rows, key), IsOf(d));
      FilterAll(added, IsOf(d));
    } else {
      FilterNone(added, IsOf(d));
      FilterFilter(rows, IsNotOf(key), IsOf(d));
      FilterCongruent(rows, Both(IsNotOf(key), IsOf(d)), IsOf(d));
      assert RowsOf(rows, d) + [] == RowsOf(rows, d);
    }
  }

  // ---------------------------------------------------------------- selecting by index

  /** `[index for index, item in enumerate(meta) if keep(item)]`, for the first n items. */
  function KeepIndexes(meta: seq<Meta>, keep: Meta -> bool, n: nat): (r: seq<nat>)
    requires n <= |meta|
    ensures |r| <= n
    ensures forall i :: 0 <= i < |r| ==> r[i] < n
  {
    if n == 0 then []
    else if keep(meta[n - 1]) then KeepIndexes(meta, keep, n - 1) + [n - 1]
    else KeepIndexes(meta, keep, n - 1)
  }

  lemma {:induction false} AllKept(meta: seq<Meta>, keep: Meta -> bool, n: nat)
    requires n <= |meta| && |KeepIndexes(meta, keep, n)| == n
    ensures forall i :: 0 <= i < n ==> keep(meta[i])
  {
    if n > 0 {
      AllKept(meta, keep, n - 1);
    }
  }

  predicate InRange(indexes: seq<nat>, length: nat) {
    forall i :: 0 <= i < |indexes| ==> indexes[i] < length
  }

  /** `[s[index] for index in indexes]`. */
  function Select<T>(s: seq<T>, indexes: seq<nat>): seq<T>
    requires InRange(indexes, |s|)
  {
    seq(|indexes|, i requires 0 <= i < |indexes| => s[indexes[i]])
  }

  function OnMeta(keep: Meta -> bool): Row -> bool {
    (r: Row) => keep(r.meta)
  }

  lemma SelectSnoc<T>(s: seq<T>, indexes: seq<nat>, k: nat)
    requires InRange(indexes, |s|) && k < |s|
    ensures Select(s, indexes + [k]) == Select(s, indexes) + [s[k]]
  {
  }

  /** Selecting from the three files is selecting rows. */
  lemma SelectRows(chunks: seq<string>, meta: seq<Meta>, vectors: seq<Vector>, idx: seq<nat>)
    requires |chunks| == |meta| == |vectors| && InRange(idx, |meta|)
    ensures Zip(Select(chunks, idx), Select(meta, idx), Select(vectors, idx)) == Select(Zip(chunks, meta, vectors), idx)
  {
  }

  /** Selecting the kept indexes is filtering. */
  lemma {:induction false} SelectIsFilter(rows: seq<Row>, meta: seq<Meta>, keep: Meta -> bool, n: nat)
    requires |rows| == |meta| && n <= |meta|
    requires forall i :: 0 <= i < |rows| ==> rows[i].meta == meta[i]
    ensures Select(rows, KeepIndexes(meta, keep, n)) == Filter(rows[..n], OnMeta(keep))
  {
    if n > 0 {
      var idx := KeepIndexes(meta, keep, n - 1);
      SelectIsFilter(rows, meta, keep, n - 1);
      FilterSnoc(rows, OnMeta(keep), n);
      assert OnMeta(keep)(rows[n - 1]) == keep(meta[n - 1]);
      if keep(meta[n - 1]) {
        SelectSnoc(rows, idx, n - 1);
      }
    }
  }

  lemma FilterSnoc(rows: seq<Row>, p: Row -> bool, n: nat)
    requires 0 < n <= |rows|
    ensures Filter(rows[..n], p) == Filter(rows[..n - 1], p) + if p(rows[n - 1]) then [rows[n - 1]] else []
  {
    assert rows[..n] == rows[..n - 1] + [rows[n - 1]];
    FilterAppend(rows[..n - 1], [rows[n - 1]], p);
    FilterOne(rows[n - 1], p);
  }

  lemma FilterOne(r: Row, p: Row -> bool)
    ensures Filter([r], p) == if p(r) then [r] else []
  {
    assert [r][1..] == [];
  }

  lemma ZipAppend(c1: seq<string>, m1: seq<Meta>, v1: seq<Vector>, c2: seq<string>, m2: seq<Meta>, v2: seq<Vector>)
    requires |c1| == |m1| == |v1| && |c2| == |m2| == |v2|
    ensures Zip(c1 + c2, m1 + m2, v1 + v2) == Zip(c1, m1, v1) + Zip(c2, m2, v2)
  {
  }

  /** On aligned files, selecting by a condition on the metadata that amounts to "not of document
      key" keeps exactly the rows of the other documents. */
  lemma SelectIsWithout(f: Files, keep: Meta -> bool, key: DocId)
    requires Aligned(f)
    requires forall r :: r in Rows(f) ==> keep(r.meta) == (r.meta.docId != key)
    ensures var idx := KeepIndexes(f.meta.value, keep, |f.meta.value|);
      Zip(Select(f.chunks.value, idx), Select(f.meta.value, idx), Select(f.emb.value.rows, idx)) == Without(Rows(f), key)
      && (|idx| == |f.meta.value| ==> Without(Rows(f), key) == Rows(f))
  {
    var c, m, v := f.chunks.value, f.meta.value, f.emb.value.rows;
    var rows := Rows(f);
    SelectRows(c, m, v, KeepIndexes(m, keep, |m|));
    SelectIsFilter(rows, m, keep, |m|);
    assert rows[..|m|] == rows;
    FilterCongruent(rows, OnMeta(keep), IsNotOf(key));
    if |KeepIndexes(m, keep, |m|)| == |m| {
      AllKept(m, keep, |m|);
      forall r | r in rows
        ensures IsNotOf(key)(r)
      {
        var i :| 0 <= i < |rows| && rows[i] == r;
        assert keep(m[i]);
      }
      FilterAll(rows, IsNotOf(key));
    }
  }

  // ---------------------------------------------------------------- rebuild

  /** `item.get("doc_id") != document_key`. */
  function OtherDoc(pk: int): Meta -> bool {
    (m: Meta) => m.docId != Uploaded(pk)
  }

  /** The document's own fields, stamped on each new metadata item. */
  function Stamp(m: Meta, doc: Document): Meta {
    m.(documentId := Some(doc.pk), title := doc.title, sourceType := doc.sourceType,
       url := if doc.sourceUrl != "" then Some(Take(doc.sourceUrl, 1000)) else m.url)
  }

  function StampAll(meta: seq<Meta>, doc: Document): seq<Meta> {
    seq(|meta|, i requires 0 <= i < |meta| => Stamp(meta[i], doc))
  }

  function OrEmpty<T>(o: File<seq<T>>): seq<T> {
    if o.Whole? then o.value else []
  }

  /** The files `rebuild_document_embeddings` is about to write, or the exception it raises before writing. */
  function RebuildPlan(f: Files, doc: Document, made: Fresh): Result<Files, Error> {
    var oldChunks, oldMeta := OrEmpty(f.chunks), OrEmpty(f.meta);
    if AnyTorn(f) then Failure(Unreadable)
    else if f.emb.Whole? && |oldChunks| != |f.emb.value.rows| then Failure(Inconsistent)
    else
      var keep := KeepIndexes(oldMeta, OtherDoc(doc.pk), |oldMeta|);
      var meta := StampAll(made.meta, doc);
      if f.emb.Absent? then Success(Files(Whole(made.chunks), Whole(meta), Whole(made.emb)))
      else if !InRange(keep, |oldChunks|) then Failure(IndexOutOfRange)
      else if f.emb.value.width != made.emb.width then Failure(WidthMismatch)
      else Success(Files(
        Whole(Select(oldChunks, keep) + made.chunks),
        Whole(Select(oldMeta, keep) + meta),
        Whole(Matrix(made.emb.width, Select(f.emb.value.rows, keep) + made.emb.rows))))
  }

  /** The directory after the first n file replacements of a rebuild: chunks, metadata, embeddings. */
  function RebuildSteps(f: Files, target: Files): seq<Files> {
    [f.(chunks := target.chunks), f.(chunks := target.chunks, meta := target.meta), target]
  }

  // ---------------------------------------------------------------- delete and remove

  /** `delete_document_artifacts`: a row belongs to the document by either of its two marks. */
  predicate KeptByDelete(m: Meta, pk: int) {
    m.documentId != Some(pk) && m.docId != Uploaded(pk)
  }

  function KeptByDeleteOf(pk: int): Meta -> bool {
    (m: Meta) => KeptByDelete(m, pk)
  }

  /** A rewrite in place, in the order embeddings, chunks, metadata: each file is torn while it is written. */
  function InPlaceSteps(f: Files, target: Files): seq<Files> {
    [f.(emb := Torn),
     f.(emb := target.emb),
     f.(emb := target.emb, chunks := Torn),
     f.(emb := target.emb, chunks := target.chunks),
     Files(target.chunks, Torn, target.emb),
     target]
  }

  /** The sequence of directories `delete_document_artifacts` goes through, or its exception.
      It writes in place; an emptied corpus is unlinked. */
  function DeletePlan(f: Files, pk: int): Result<seq<Files>, Error> {
    var oldChunks, oldMeta := OrEmpty(f.chunks), OrEmpty(f.meta);
    var keep := KeepIndexes(oldMeta, KeptByDeleteOf(pk), |oldMeta|);
    if f.chunks.Torn? || f.meta.Torn? then Failure(Unreadable)
    else if |keep| == |oldMeta| then Success([])
    else if !InRange(keep, |oldChunks|) then Failure(IndexOutOfRange)
    else if keep == [] then
      Success([f.(chunks := Absent), f.(chunks := Absent, meta := Absent), NO_FILES])
    else if f.emb.Absent? then Failure(MissingFile)
    else if f.emb.Torn? then Failure(Unreadable)
    else if !InRange(keep, |f.emb.value.rows|) then Failure(IndexOutOfRange)
    else
      Success(InPlaceSteps(f, Files(Whole(Select(oldChunks, keep)), Whole(Select(oldMeta, keep)),
                                    Whole(Matrix(f.emb.value.width, Select(f.emb.value.rows, keep))))))
  }

  /** `remove_document_embeddings`: chunks, metadata, embeddings, and never an unlink. */
  function RemovePlan(f: Files, pk: int): Result<seq<Files>, Error> {
    var oldChunks, oldMeta := OrEmpty(f.chunks), OrEmpty(f.meta);
    if AnyTorn(f) then Failure(Unreadable)
    else if f.emb.Absent? then Success([])
    else if |oldChunks| != |oldMeta| || |oldChunks| != |f.emb.value.rows| then Failure(Inconsistent)
    else
      var keep := KeepIndexes(oldMeta, OtherDoc(pk), |oldMeta|);
      if |keep| == |oldMeta| then Success([])
      else
        var target := Files(Whole(Select(oldChunks, keep)), Whole(Select(oldMeta, keep)),
                            Whole(Matrix(f.emb.value.width, Select(f.emb.value.rows, keep))));
        Success(RebuildSteps(f, target))
  }

  function Final(f: Files, steps: seq<Files>): Files {
    if steps == [] then f else steps[|steps| - 1]
  }

  // ---------------------------------------------------------------- the directory

  /** CORPUS_DATA_DIR under the corpus lock. `journal` records every directory a crash can leave behind. */
  class CorpusStore {
    var chunks: File<seq<string>>
    var meta: File<seq<Meta>>
    var emb: File<Matrix>
    ghost var journal: seq<Files>

    constructor ()
      ensures Dir() == NO_FILES && journal == []
    {
      chunks, meta, emb := Absent, Absent, Absent;
      journal := [];
    }

    ghost function Dir(): Files
      reads this
    {
      Files(chunks, meta, emb)
    }

    method WriteChunks(value: File<seq<string>>)
      modifies this
      ensures Dir() == old(Dir()).(chunks := value) && journal == old(journal) + [Dir()]
    {
      chunks := value;
      journal := journal + [Dir()];
    }

    method WriteMeta(value: File<seq<Meta>>)
      modifies this
      ensures Dir() == old(Dir()).(meta := value) && journal == old(journal) + [Dir()]
    {
      meta := value;
      journal := journal + [Dir()];
    }

    method WriteEmbeddings(value: File<Matrix>)
      modifies this
      ensures Dir() == old(Dir()).(emb := value) && journal == old(journal) + [Dir()]
    {
      emb := value;
      journal := journal + [Dir()];
    }

    method RebuildDocumentEmbeddings(doc: Document, made: Fresh) returns (r: Result<nat, Error>)
      modifies this
      ensures match RebuildPlan(old(Dir()), doc, made)
              case Failure(e) => r == Failure(e) && Dir() == old(Dir()) && journal == old(journal)
              case Success(target) =>
                r == Success(|made.chunks|) && Dir() == target
                && journal == old(journal) + RebuildSteps(old(Dir()), target)
    {
      if chunks.Torn? || meta.Torn? || emb.Torn? {
        return Failure(Unreadable);
      }
      var oldChunks := OrEmpty(chunks);
      var oldMeta := OrEmpty(meta);
      if emb.Whole? && |oldChunks| != |emb.value.rows| {
        return Failure(Inconsistent);
      }
      var keep := KeepIndexes(oldMeta, OtherDoc(doc.pk), |oldMeta|);
      var keptRows, keptChunks, keptMeta := [], [], [];
      if emb.Whole? {
        if !InRange(keep, |oldChunks|) {
          return Failure(IndexOutOfRange);
        }
        keptRows := Select(emb.value.rows, keep);
        keptChunks := Select(oldChunks, keep);
        keptMeta := Select(oldMeta, keep);
        if emb.value.width != made.emb.width {
          return Failure(WidthMismatch);
        }
      }
      var finalChunks := keptChunks + made.chunks;
      var finalMeta := keptMeta + StampAll(made.meta, doc);
      var finalEmb := Matrix(made.emb.width, keptRows + made.emb.rows);
      assert emb.Absent? ==> finalChunks == made.chunks && finalMeta == StampAll(made.meta, doc) && finalEmb == made.emb;
      WriteChunks(Whole(finalChunks));
      WriteMeta(Whole(finalMeta));
      WriteEmbeddings(Whole(finalEmb));
      return Success(|made.chunks|);
    }

    method DeleteDocumentArtifacts(pk: int) returns (r: Result<(), Error>)
      modifies this
      ensures var plan := DeletePlan(old(Dir()), pk);
        if plan.Failure? then r == Failure(plan.error) && Dir() == old(Dir()) && journal == old(journal)
        else r == Success(()) && Dir() == Final(old(Dir()), plan.value) && journal == old(journal) + plan.value
    {
      ghost var start := Dir();
      if chunks.Torn? || meta.Torn? {
        return Failure(Unreadable);
      }
      var oldChunks := OrEmpty(chunks);
      var oldMeta := OrEmpty(meta);
      var keep := KeepIndexes(oldMeta, KeptByDeleteOf(pk), |oldMeta|);
      if |keep| != |oldMeta| {
        if !InRange(keep, |oldChunks|) {
          return Failure(IndexOutOfRange);
        }
        var newChunks := Select(oldChunks, keep);
        var newMeta := Select(oldMeta, keep);
        if |newChunks| > 0 {
          if emb.Absent? {
            return Failure(MissingFile);
          }
          if emb.Torn? {
            return Failure(Unreadable);
          }
          if !InRange(keep, |emb.value.rows|) {
            return Failure(IndexOutOfRange);
          }
          RewriteInPlace(newChunks, newMeta, Matrix(emb.value.width, Select(emb.value.rows, keep)));
        } else {
          WriteChunks(Absent);
          WriteMeta(Absent);
          WriteEmbeddings(Absent);
          assert keep == [];
          assert DeletePlan(start, pk)
              == Success([start.(chunks := Absent), start.(chunks := Absent, meta := Absent), NO_FILES]);
        }
      }
      return Success(());
    }

    /** `np.save` and `write_text` open the file itself: it is torn until they return. */
    method RewriteInPlace(newChunks: seq<string>, newMeta: seq<Meta>, newEmb: Matrix)
      modifies this
      ensures Dir() == Files(Whole(newChunks), Whole(newMeta), Whole(newEmb))
      ensures journal == old(journal) + InPlaceSteps(old(Dir()), Dir())
    {
      WriteEmbeddings(Torn);
      WriteEmbeddings(Whole(newEmb));
      WriteChunks(Torn);
      WriteChunks(Whole(newChunks));
      WriteMeta(Torn);
      WriteMeta(Whole(newMeta));
    }

    method RemoveDocumentEmbeddings(pk: int) returns (r: Result<(), Error>)
      modifies this
      ensures match RemovePlan(old(Dir()), pk)
              case Failure(e) => r == Failure(e) && Dir() == old(Dir()) && journal == old(journal)
              case Success(steps) =>
                r == Success(()) && Dir() == Final(old(Dir()), steps) && journal == old(journal) + steps
    {
      if chunks.Torn? || meta.Torn? || emb.Torn? {
        return Failure(Unreadable);
      }
      var oldChunks := OrEmpty(chunks);
      var oldMeta := OrEmpty(meta);
      if emb.Absent? {
        return Success(());
      }
      if |oldChunks| != |oldMeta| || |oldChunks| != |emb.value.rows| {
        return Failure(Inconsistent);
      }
      var keep := KeepIndexes(oldMeta, OtherDoc(pk), |oldMeta|);
      if |keep| == |oldMeta| {
        return Success(());
      }
      var rows := emb.value.rows;
      WriteChunks(Whole(Select(oldChunks, keep)));
      WriteMeta(Whole(Select(oldMeta, keep)));
      WriteEmbeddings(Whole(Matrix(emb.value.width, Select(rows, keep))));
      return Success(());
    }
  }

  // ---------------------------------------------------------------- refinement

  function FreshRows(doc: Document, made: Fresh): (rows: seq<Row>)
    requires FreshFor(made, doc)
    ensures forall r :: r in rows ==> r.meta.docId == Uploaded(doc.pk) && r.meta.documentId == Some(doc.pk)
    ensures forall r :: r in rows ==> r.meta.title == doc.title && r.meta.sourceType == doc.sourceType
  {
    Zip(made.chunks, StampAll(made.meta, doc), made.emb.rows)
  }

  /** New row number i is the document's chunk, page, span and vector number i, with the document's own
      title, type and number, and its URL, if it has one, cut to 1000 characters. */
  lemma FreshRowsAre(doc: Document, made: Fresh, i: nat)
    requires FreshFor(made, doc) && i < |made.chunks|
    ensures |FreshRows(doc, made)| == |made.chunks|
    ensures var r := FreshRows(doc, made)[i];
      r.chunk == made.chunks[i] && r.vector == made.emb.rows[i]
      && r.meta.page == made.meta[i].page && r.meta.span == made.meta[i].span
      && r.meta.docId == Uploaded(doc.pk) && r.meta.documentId == Some(doc.pk)
      && r.meta.title == doc.title && r.meta.sourceType == doc.sourceType
      && (doc.sourceUrl == "" ==> r.meta.url == made.meta[i].url)
      && (doc.sourceUrl != "" ==> r.meta.url.Some? && r.meta.url.value <= doc.sourceUrl
                                  && |r.meta.url.value| == Min(1000, |doc.sourceUrl|))
  {
  }

  lemma RebuildOfAligned(f: Files, doc: Document, made: Fresh)
    requires Aligned(f) && f.emb.value.width == made.emb.width
    ensures var idx := KeepIndexes(f.meta.value, OtherDoc(doc.pk), |f.meta.value|);
      RebuildPlan(f, doc, made) == Success(Files(
        Whole(Select(f.chunks.value, idx) + made.chunks),
        Whole(Select(f.meta.value, idx) + StampAll(made.meta, doc)),
        Whole(Matrix(made.emb.width, Select(f.emb.value.rows, idx) + made.emb.rows))))
  {
  }

  /** On a sound corpus of the same vector width a rebuild always succeeds, leaves a sound corpus and
      replaces exactly the document's rows: the others keep their order and their chunk, metadata
      and vector; the new ones follow. */
  lemma RebuildReplaces(f: Files, doc: Document, made: Fresh)
    requires Sound(f) && FreshFor(made, doc)
    requires f.emb.Whole? ==> f.emb.value.width == made.emb.width
    ensures var r := RebuildPlan(f, doc, made);
      r.Success? && Aligned(r.value) && r.value.emb.value.width == made.emb.width
      && Rows(r.value) == Without(Rows(f), Uploaded(doc.pk)) + FreshRows(doc, made)
  {
    var key := Uploaded(doc.pk);
    if f == NO_FILES {
      assert Without([], key) + FreshRows(doc, made) == FreshRows(doc, made);
    } else {
      RebuildOfAligned(f, doc, made);
      SelectIsWithout(f, OtherDoc(doc.pk), key);
      var idx := KeepIndexes(f.meta.value, OtherDoc(doc.pk), |f.meta.value|);
      ZipAppend(Select(f.chunks.value, idx), Select(f.meta.value, idx), Select(f.emb.value.rows, idx),
                made.chunks, StampAll(made.meta, doc), made.emb.rows);
    }
  }

  /** As a map from document to chunk list, a rebuild is an update at one key. */
  lemma RebuildIsMapUpdate(f: Files, doc: Document, made: Fresh, d: DocId)
    requires Sound(f) && FreshFor(made, doc)
    requires f.emb.Whole? ==> f.emb.value.width == made.emb.width
    ensures var r := RebuildPlan(f, doc, made);
      r.Success? && Aligned(r.value)
      && RowsOf(Rows(r.value), d) == if d == Uploaded(doc.pk) then FreshRows(doc, made) else RowsOf(Rows(f), d)
  {
    RebuildReplaces(f, doc, made);
    ReplacingIsUpdate(Rows(f), Uploaded(doc.pk), FreshRows(doc, made), d);
  }

  /** The last rebuild of a document decides: an earlier one of the same document leaves no trace. */
  lemma LastRebuildWins(f: Files, doc: Document, first: Fresh, second: Fresh)
    requires Sound(f) && FreshFor(first, doc) && FreshFor(second, doc)
    requires first.emb.width == second.emb.width && (f.emb.Whole? ==> f.emb.value.width == first.emb.width)
    ensures var r1 := RebuildPlan(f, doc, first);
      var r2 := RebuildPlan(f, doc, second);
      r1.Success? && r2.Success? && RebuildPlan(r1.value, doc, second) == r2
  {
    RebuildReplaces(f, doc, first);
    RebuildReplaces(f, doc, second);
    var g := RebuildPlan(f, doc, first).value;
    RebuildReplaces(g, doc, second);
    var key := Uploaded(doc.pk);
    var kept, added := Without(Rows(f), key), FreshRows(doc, first);
    var q := IsNotOf(key);
    FilterAppend(kept, added, q);
    FilterNone(added, q);
    FilterAll(kept, q);
    assert kept + [] == kept;
    SameRowsSameFiles(RebuildPlan(g, doc, second).value, RebuildPlan(f, doc, second).value);
  }

  lemma SameRowsSameFiles(f: Files, g: Files)
    requires Aligned(f) && Aligned(g) && Rows(f) == Rows(g) && f.emb.value.width == g.emb.value.width
    ensures f == g
  {
    var a, b := Rows(f), Rows(g);
    assert forall i :: 0 <= i < |a| ==> a[i] == b[i] && a[i] == Row(f.chunks.value[i], f.meta.value[i], f.emb.value.rows[i]);
    assert f.chunks.value == g.chunks.value;
    assert f.meta.value == g.meta.value;
    assert f.emb.value.rows == g.emb.value.rows;
  }

  /** Rebuilding twice equals rebuilding once. */
  lemma RebuildIdempotent(f: Files, doc: Document, made: Fresh)
    requires Sound(f) && FreshFor(made, doc)
    requires f.emb.Whole? ==> f.emb.value.width == made.emb.width
    ensures var r := RebuildPlan(f, doc, made);
      r.Success? && RebuildPlan(r.value, doc, made) == r
  {
    LastRebuildWins(f, doc, made, made);
  }

  /** The two marks of a row agree: a stamped id names the uploaded document. */
  predicate MarksAgree(f: Files)
    requires Sound(f)
  {
    forall r :: r in Rows(f) && r.meta.documentId.Some? ==> r.meta.docId == Uploaded(r.meta.documentId.value)
  }

  lemma RebuildKeepsMarks(f: Files, doc: Document, made: Fresh)
    requires Sound(f) && FreshFor(made, doc) && MarksAgree(f)
    requires f.emb.Whole? ==> f.emb.value.width == made.emb.width
    ensures var r := RebuildPlan(f, doc, made);
      r.Success? && Sound(r.value) && MarksAgree(r.value)
  {
    RebuildReplaces(f, doc, made);
  }

  lemma DeleteOfAligned(f: Files, pk: int)
    requires Aligned(f)
    ensures var idx := KeepIndexes(f.meta.value, KeptByDeleteOf(pk), |f.meta.value|);
      DeletePlan(f, pk) == Success(
        if |idx| == |f.meta.value| then []
        else if idx == [] then [f.(chunks := Absent), f.(chunks := Absent, meta := Absent), NO_FILES]
        else InPlaceSteps(f, Files(Whole(Select(f.chunks.value, idx)), Whole(Select(f.meta.value, idx)),
                                   Whole(Matrix(f.emb.value.width, Select(f.emb.value.rows, idx))))))
  {
  }

  lemma DeleteFromAligned(f: Files, pk: int)
    requires Aligned(f) && MarksAgree(f)
    ensures DeletePlan(f, pk).Success?
    ensures var g := Final(f, DeletePlan(f, pk).value);
      var left := Without(Rows(f), Uploaded(pk));
      if left == [] then g == NO_FILES else Aligned(g) && Rows(g) == left
  {
    var left := Without(Rows(f), Uploaded(pk));
    var idx := KeepIndexes(f.meta.value, KeptByDeleteOf(pk), |f.meta.value|);
    forall r | r in Rows(f)
      ensures KeptByDeleteOf(pk)(r.meta) == (r.meta.docId != Uploaded(pk))
    {
    }
    DeleteOfAligned(f, pk);
    SelectIsWithout(f, KeptByDeleteOf(pk), Uploaded(pk));
    assert |left| == |idx|;
    if |idx| == |f.meta.value| {
      assert Final(f, DeletePlan(f, pk).value) == f;
    } else if idx != [] {
      var g := Files(Whole(Select(f.chunks.value, idx)), Whole(Select(f.meta.value, idx)),
                     Whole(Matrix(f.emb.value.width, Select(f.emb.value.rows, idx))));
      assert Final(f, DeletePlan(f, pk).value) == g;
      assert Aligned(g) && Rows(g) == left;
    }
  }

  /** Deleting removes exactly one document; the others keep order and pairing. The corpus that
      loses its last row loses its files. */
  lemma DeleteRemoves(f: Files, pk: int)
    requires Sound(f) && MarksAgree(f)
    ensures var r := DeletePlan(f, pk);
      r.Success?
      && var g := Final(f, r.value);
      Sound(g) && MarksAgree(g)
      && Rows(g) == Without(Rows(f), Uploaded(pk))
      && (g == NO_FILES <==> Without(Rows(f), Uploaded(pk)) == [])
  {
    if f != NO_FILES {
      DeleteFromAligned(f, pk);
      forall r | r in Without(Rows(f), Uploaded(pk))
        ensures r in Rows(f)
      {
      }
    }
  }

  /** As a map, a delete drops one key and touches no other. */
  lemma DeleteIsMapRemoval(f: Files, pk: int, d: DocId)
    requires Sound(f) && MarksAgree(f)
    ensures var r := DeletePlan(f, pk);
      r.Success? && Sound(Final(f, r.value))
      && RowsOf(Rows(Final(f, r.value)), d) == if d == Uploaded(pk) then [] else RowsOf(Rows(f), d)
  {
    DeleteRemoves(f, pk);
    ReplacingIsUpdate(Rows(f), Uploaded(pk), [], d);
    assert Without(Rows(f), Uploaded(pk)) + [] == Without(Rows(f), Uploaded(pk));
  }

  // ---------------------------------------------------------------- runs

  datatype Operation = Rebuild(doc: Document, made: Fresh) | Delete(pk: int)

  /** An operation that fails leaves the directory as it was. */
  function Do(f: Files, op: Operation): Files {
    match op
    case Rebuild(doc, made) => (match RebuildPlan(f, doc, made) case Success(g) => g case Failure(_) => f)
    case Delete(pk) => (match DeletePlan(f, pk) case Success(steps) => Final(f, steps) case Failure(_) => f)
  }

  function Run(f: Files, ops: seq<Operation>): Files {
    if ops == [] then f else Do(Run(f, ops[..|ops| - 1]), ops[|ops| - 1])
  }

  /** Rebuilds and deletes, in any number and order, only ever reach "no files" or "non-empty and
      aligned", whether or not the vector widths agree. */
  lemma {:induction false} RunsStaySound(f: Files, ops: seq<Operation>)
    requires Sound(f) && MarksAgree(f)
    requires forall i :: 0 <= i < |ops| && ops[i].Rebuild? ==> FreshFor(ops[i].made, ops[i].doc)
    ensures Sound(Run(f, ops)) && MarksAgree(Run(f, ops))
  {
    if ops != [] {
      var before := Run(f, ops[..|ops| - 1]);
      RunsStaySound(f, ops[..|ops| - 1]);
      match ops[|ops| - 1]
      case Rebuild(doc, made) =>
        if before.emb.Whole? && before.emb.value.width != made.emb.width {
          assert Do(before, ops[|ops| - 1]) == before;
        } else {
          RebuildKeepsMarks(before, doc, made);
        }
      case Delete(pk) =>
        DeleteRemoves(before, pk);
    }
  }

  lemma RemoveOfAligned(f: Files, pk: int)
    requires Aligned(f)
    ensures var idx := KeepIndexes(f.meta.value, OtherDoc(pk), |f.meta.value|);
      RemovePlan(f, pk) == Success(
        if |idx| == |f.meta.value| then []
        else RebuildSteps(f, Files(Whole(Select(f.chunks.value, idx)), Whole(Select(f.meta.value, idx)),
                                   Whole(Matrix(f.emb.value.width, Select(f.emb.value.rows, idx))))))
  {
  }

  lemma RemoveFromAligned(f: Files, pk: int)
    requires Aligned(f)
    ensures RemovePlan(f, pk).Success?
    ensures var g := Final(f, RemovePlan(f, pk).value);
      var left := Without(Rows(f), Uploaded(pk));
      if left == [] then g == Files(Whole([]), Whole([]), Whole(Matrix(f.emb.value.width, [])))
      else Aligned(g) && Rows(g) == left
  {
    var idx := KeepIndexes(f.meta.value, OtherDoc(pk), |f.meta.value|);
    var left := Without(Rows(f), Uploaded(pk));
    RemoveOfAligned(f, pk);
    SelectIsWithout(f, OtherDoc(pk), Uploaded(pk));
    assert |left| == |idx|;
    if |idx| == |f.meta.value| {
      assert Final(f, RemovePlan(f, pk).value) == f;
    } else {
      var g := Files(Whole(Select(f.chunks.value, idx)), Whole(Select(f.meta.value, idx)),
                     Whole(Matrix(f.emb.value.width, Select(f.emb.value.rows, idx))));
      assert Final(f, RemovePlan(f, pk).value) == g;
      if left != [] {
        assert Aligned(g) && Rows(g) == left;
      }
    }
  }

  /** `remove_document_embeddings` is the same removal, except that it keeps three empty files when
      the document was the only one. */
  lemma RemoveRemoves(f: Files, pk: int)
    requires Sound(f)
    ensures var r := RemovePlan(f, pk);
      r.Success?
      && var g := Final(f, r.value);
      var left := Without(Rows(f), Uploaded(pk));
      (Sound(g) <==> left != [] || f == NO_FILES)
      && (Sound(g) ==> Rows(g) == left)
      && (!Sound(g) ==> g == Files(Whole([]), Whole([]), Whole(Matrix(f.emb.value.width, []))))
  {
    if f != NO_FILES {
      RemoveFromAligned(f, pk);
    }
  }
}
