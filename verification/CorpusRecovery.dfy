/** Crashes between two file replacements, the boot-time repair (`_ensure_corpus` and
    `_validate_pairs` in chat/management/commands/ensure_deploy.py) and the consistency check of
    `Retriever` (rag/retriever.py). */
module CorpusRecovery {
  import opened Prelude
  import opened Corpus

  datatype Artifact = Chunks | Metadata | Embeddings

  predicate Present(f: Files, a: Artifact) {
    match a
    case Chunks => !f.chunks.Absent?
    case Metadata => !f.meta.Absent?
    case Embeddings => !f.emb.Absent?
  }

  function Existing(f: Files): (names: set<Artifact>)
    ensures forall a :: a in names <==> Present(f, a)
  {
    set a: Artifact | a in {Chunks, Metadata, Embeddings} && Present(f, a)
  }

  /** The directory after `_ensure_corpus`. Torn chunks or embeddings are "treated as ok", and the
      metadata file is not opened at all. */
  function Repaired(f: Files): Files {
    if f.chunks.Absent? || f.meta.Absent? || f.emb.Absent? then NO_FILES
    else if f.chunks.Torn? || f.emb.Torn? then f
    else if |f.chunks.value| != |f.emb.value.rows| then NO_FILES
    else f
  }

  method Unlink(store: CorpusStore, a: Artifact)
    modifies store
    ensures forall b :: Present(store.Dir(), b) <==> Present(old(store.Dir()), b) && b != a
  {
    match a {
      case Chunks => store.WriteChunks(Absent);
      case Metadata => store.WriteMeta(Absent);
      case Embeddings => store.WriteEmbeddings(Absent);
    }
  }

  /** Removes the given artifacts one at a time, in any order. */
  method UnlinkAll(store: CorpusStore, names: set<Artifact>)
    requires forall a :: Present(store.Dir(), a) ==> a in names
    modifies store
    ensures store.Dir() == NO_FILES
  {
    var todo := names;
    while todo != {}
      invariant forall a :: Present(store.Dir(), a) ==> a in todo
      decreases |todo|
    {
      var a :| a in todo;
      Unlink(store, a);
      todo := todo - {a};
    }
    NothingExists(store.Dir());
  }

  lemma NothingExists(f: Files)
    requires forall a :: !Present(f, a)
    ensures f == NO_FILES
  {
    assert !Present(f, Chunks) && !Present(f, Metadata) && !Present(f, Embeddings);
  }

  method EnsureCorpus(store: CorpusStore)
    modifies store
    ensures store.Dir() == Repaired(old(store.Dir()))
  {
    var names := Existing(Files(store.chunks, store.meta, store.emb));
    if names == {Chunks, Metadata, Embeddings} {
      assert Present(store.Dir(), Chunks) && Present(store.Dir(), Metadata) && Present(store.Dir(), Embeddings);
      if store.chunks.Torn? || store.emb.Torn? {
        return;
      }
      if |store.chunks.value| != |store.emb.value.rows| {
        UnlinkAll(store, {Chunks, Metadata, Embeddings});
      }
      return;
    }
    if names == {} {
      NothingExists(store.Dir());
      return;
    }
    UnlinkAll(store, names);
  }

  // ---------------------------------------------------------------- loading

  datatype LoadError = Partial | Unreadable | Unequal

  /** The constructor of `Retriever`: no files is an empty knowledge base; a partial, unreadable or
      unequal triple is refused. */
  function Load(f: Files): Result<seq<Row>, LoadError> {
    if f == NO_FILES then Success([])
    else if f.chunks.Absent? || f.meta.Absent? || f.emb.Absent? then Failure(Partial)
    else if AnyTorn(f) then Failure(LoadError.Unreadable)
    else if f.chunks.value == [] || |f.chunks.value| != |f.meta.value| || |f.chunks.value| != |f.emb.value.rows| then
      Failure(Unequal)
    else Success(Zip(f.chunks.value, f.meta.value, f.emb.value.rows))
  }

  /** The retriever starts exactly on sound directories, and then serves their rows. */
  lemma LoadsIffSound(f: Files)
    ensures Load(f).Success? <==> Sound(f)
    ensures Sound(f) ==> Load(f) == Success(Rows(f))
  {
  }

  /** A second boot repairs nothing more: what the first one left is final. */
  lemma RepairIsFinal(f: Files)
    ensures Repaired(Repaired(f)) == Repaired(f)
    ensures Sound(f) ==> Repaired(f) == f
  {
  }

  // ---------------------------------------------------------------- a crashed rebuild

  /** The directory when the process dies after n of the given file replacements. */
  function Crashed(f: Files, steps: seq<Files>, n: nat): Files
    requires n <= |steps|
  {
    if n == 0 then f else steps[n - 1]
  }

  /** A rebuild that dies anywhere and is then repaired leaves a directory the retriever accepts.
      It is the old corpus before the first write, the new one after the last, and in between the
      corpus is cleared unless the total number of chunks happened to stay the same. */
  lemma CrashedRebuild(f: Files, doc: Document, made: Fresh, n: nat)
    requires Sound(f) && FreshFor(made, doc) && n <= 3
    requires f.emb.Whole? ==> f.emb.value.width == made.emb.width
    ensures var target := RebuildPlan(f, doc, made);
      target.Success?
      && var g := Repaired(Crashed(f, RebuildSteps(f, target.value), n));
      Load(g).Success?
      && g == (if n == 0 then f
               else if n == 3 then target.value
               else if f == NO_FILES || |target.value.chunks.value| != |f.chunks.value| then NO_FILES
               else f.(chunks := target.value.chunks, meta := if n == 2 then target.value.meta else f.meta))
  {
    RebuildReplaces(f, doc, made);
    LoadsIffSound(Repaired(Crashed(f, RebuildSteps(f, RebuildPlan(f, doc, made).value), n)));
  }

  /** The crash is invisible (old, new or empty corpus) exactly in these cases; a document whose
      number of chunks changed is always among them. */
  lemma CrashedRebuildAtomicIff(f: Files, doc: Document, made: Fresh, n: nat)
    requires Sound(f) && FreshFor(made, doc) && n <= 3
    requires f.emb.Whole? ==> f.emb.value.width == made.emb.width
    ensures var target := RebuildPlan(f, doc, made).value;
      var g := Repaired(Crashed(f, RebuildSteps(f, target), n));
      (g == f || g == target || g == NO_FILES) <==>
        (n == 0 || n == 3 || f == NO_FILES
         || |RowsOf(Rows(f), Uploaded(doc.pk))| != |made.chunks|
         || (n == 1 && (target.chunks == f.chunks || (target.meta == f.meta && target.emb == f.emb)))
         || (n == 2 && (target.emb == f.emb || (target.chunks == f.chunks && target.meta == f.meta))))
  {
    CrashedRebuild(f, doc, made, n);
    RebuildReplaces(f, doc, made);
    Partition(Rows(f), Uploaded(doc.pk));
  }

  lemma {:induction false} Partition(rows: seq<Row>, d: DocId)
    ensures |Without(rows, d)| + |RowsOf(rows, d)| == |rows|
  {
    if rows != [] {
      Partition(rows[1..], d);
    }
  }

  /** With an unchanged number of chunks the repair sees nothing wrong: the retriever then serves
      the new text under the vector of the old text. */
  lemma TornRebuildExample(doc: Document, oldMeta: Meta, newMeta: Meta)
    requires oldMeta.docId == newMeta.docId == Uploaded(doc.pk)
    ensures var f := Files(Whole(["old"]), Whole([oldMeta]), Whole(Matrix(1, [[0.0]])));
      var made := Fresh(["new"], [newMeta], Matrix(1, [[1.0]]));
      Sound(f) && FreshFor(made, doc)
      && RebuildPlan(f, doc, made).Success?
      && var g := Repaired(Crashed(f, RebuildSteps(f, RebuildPlan(f, doc, made).value), 1));
      Load(g) == Success([Row("new", oldMeta, [0.0])])
  {
    var f := Files(Whole(["old"]), Whole([oldMeta]), Whole(Matrix(1, [[0.0]])));
    var made := Fresh(["new"], [newMeta], Matrix(1, [[1.0]]));
    RebuildOfAligned(f, doc, made);
    assert KeepIndexes([oldMeta], OtherDoc(doc.pk), 1) == [];
    assert Select(["old"], []) + ["new"] == ["new"];
    var g := Crashed(f, RebuildSteps(f, RebuildPlan(f, doc, made).value), 1);
    assert g == Files(Whole(["new"]), Whole([oldMeta]), Whole(Matrix(1, [[0.0]])));
    assert Zip(["new"], [oldMeta], [[0.0]]) == [Row("new", oldMeta, [0.0])];
  }

  // ---------------------------------------------------------------- crashed deletes

  /** A delete that leaves other documents dies at one of seven points. Repaired, it is accepted by the
      retriever before its first write, after its last, and after the embeddings alone; a torn file or
      metadata that is one write behind is refused. What is accepted is the old, the new or the empty
      corpus; where it is refused no later boot changes anything.
      A delete of the last document is accepted wherever it dies. */
  lemma CrashedDelete(f: Files, pk: int, n: nat)
    requires Sound(f) && MarksAgree(f)
    requires n <= |DeletePlan(f, pk).value|
    ensures var steps := DeletePlan(f, pk).value;
      var g := Repaired(Crashed(f, steps, n));
      (Load(g).Success? <==> Without(Rows(f), Uploaded(pk)) == [] || n == 0 || n == 2 || n == 6)
      && Repaired(g) == g
      && (Load(g).Success? ==> g == f || g == NO_FILES || g == Final(f, steps))
  {
    var steps := DeletePlan(f, pk).value;
    DeleteRemoves(f, pk);
    LoadsIffSound(Repaired(Crashed(f, steps, n)));
    if steps != [] {
      var keep := KeepIndexes(f.meta.value, KeptByDeleteOf(pk), |f.meta.value|);
      assert |keep| < |f.meta.value|;
      assert |Without(Rows(f), Uploaded(pk))| == |keep|;
    }
  }

  /** A torn file among three is refused by the retriever and by every rebuild and removal, and a boot
      clears it only when it is the metadata and the other two lengths disagree. */
  lemma TornStays(f: Files, doc: Document, made: Fresh, pk: int)
    requires AnyTorn(f) && forall a :: Present(f, a)
    ensures Load(f) == Failure(LoadError.Unreadable)
    ensures Repaired(f) != f <==> f.chunks.Whole? && f.emb.Whole? && |f.chunks.value| != |f.emb.value.rows|
    ensures RebuildPlan(f, doc, made) == Failure(Error.Unreadable) && RemovePlan(f, pk) == Failure(Error.Unreadable)
    ensures f.chunks.Torn? || f.meta.Torn? ==> DeletePlan(f, pk) == Failure(Error.Unreadable)
  {
    assert Present(f, Chunks) && Present(f, Metadata) && Present(f, Embeddings);
  }

  /** `remove_document_embeddings` is accepted at every crash point, and after completion exactly
      when some other document is left. */
  lemma CrashedRemove(f: Files, pk: int, n: nat)
    requires Sound(f) && n <= |RemovePlan(f, pk).value|
    ensures var steps := RemovePlan(f, pk).value;
      var g := Repaired(Crashed(f, steps, n));
      Load(g).Success? <==> !(n == 3 && Without(Rows(f), Uploaded(pk)) == [])
  {
    var steps := RemovePlan(f, pk).value;
    RemoveRemoves(f, pk);
    LoadsIffSound(Repaired(Crashed(f, steps, n)));
    if steps != [] {
      var keep := KeepIndexes(f.meta.value, OtherDoc(pk), |f.meta.value|);
      assert |keep| < |f.meta.value|;
    }
  }

  /** With torn embeddings a delete gets through only if it has nothing to delete or deletes everything,
      and in that case it clears the directory. */
  lemma DeleteWithTornEmbeddings(f: Files, pk: int)
    requires f.chunks.Whole? && f.meta.Whole? && f.emb.Torn? && |f.chunks.value| == |f.meta.value| > 0
    ensures var kept := Filter(f.meta.value, KeptByDeleteOf(pk));
      if kept == [] then DeletePlan(f, pk).Success? && Final(f, DeletePlan(f, pk).value) == NO_FILES
      else if kept == f.meta.value then DeletePlan(f, pk) == Success([])
      else DeletePlan(f, pk) == Failure(Error.Unreadable)
  {
    KeptAre(f.meta.value, KeptByDeleteOf(pk), |f.meta.value|);
    assert f.meta.value[..|f.meta.value|] == f.meta.value;
    FilterFull(f.meta.value, KeptByDeleteOf(pk));
  }

  lemma {:induction false} KeptAre(meta: seq<Meta>, keep: Meta -> bool, n: nat)
    requires n <= |meta|
    ensures |KeepIndexes(meta, keep, n)| == |Filter(meta[..n], keep)|
  {
    if n > 0 {
      KeptAre(meta, keep, n - 1);
      assert meta[..n] == meta[..n - 1] + [meta[n - 1]];
      FilterAppend(meta[..n - 1], [meta[n - 1]], keep);
      assert [meta[n - 1]][1..] == [];
    }
  }

  lemma {:induction false} FilterFull(meta: seq<Meta>, keep: Meta -> bool)
    ensures |Filter(meta, keep)| == |meta| <==> Filter(meta, keep) == meta
  {
    if meta != [] {
      FilterFull(meta[1..], keep);
    }
  }

  // ---------------------------------------------------------------- runs with crashes

  /** A completed operation, or one that dies at its n-th crash point and is followed by the repair at
      boot: a rebuild anywhere, a delete at a harmless point (see CrashedDelete). */
  datatype Episode = Completed(op: Operation) | Interrupted(doc: Document, made: Fresh, n: nat) | CutShort(pk: int, n: nat)

  predicate Proper(e: Episode) {
    match e
    case Completed(op) => op.Rebuild? ==> FreshFor(op.made, op.doc)
    case Interrupted(doc, made, n) => FreshFor(made, doc) && n <= 3
    case CutShort(_, n) => n == 0 || n == 2 || n == 6
  }

  function Live(f: Files, e: Episode): Files
    requires Proper(e)
  {
    match e
    case Completed(op) => Do(f, op)
    case Interrupted(doc, made, n) =>
      (match RebuildPlan(f, doc, made)
       case Failure(_) => Repaired(f)
       case Success(target) => Repaired(Crashed(f, RebuildSteps(f, target), n)))
    case CutShort(pk, n) =>
      (match DeletePlan(f, pk)
       case Failure(_) => Repaired(f)
       case Success(steps) => Repaired(Crashed(f, steps, Min(n, |steps|))))
  }

  function LiveAll(f: Files, es: seq<Episode>): Files
    requires forall i :: 0 <= i < |es| ==> Proper(es[i])
  {
    if es == [] then f else Live(LiveAll(f, es[..|es| - 1]), es[|es| - 1])
  }

  /** Whatever the sequence of rebuilds, deletes, rebuilds that die anywhere, deletes that die harmlessly,
      and repairs, the retriever can always start. */
  lemma {:induction false} AlwaysServable(f: Files, es: seq<Episode>)
    requires Sound(f) && MarksAgree(f)
    requires forall i :: 0 <= i < |es| ==> Proper(es[i])
    ensures Sound(LiveAll(f, es)) && MarksAgree(LiveAll(f, es)) && Load(LiveAll(f, es)).Success?
  {
    if es == [] {
      LoadsIffSound(f);
    } else {
      var g := LiveAll(f, es[..|es| - 1]);
      AlwaysServable(f, es[..|es| - 1]);
      EpisodeKeepsSound(g, es[|es| - 1]);
      LoadsIffSound(LiveAll(f, es));
    }
  }

  lemma EpisodeKeepsSound(f: Files, e: Episode)
    requires Sound(f) && MarksAgree(f) && Proper(e)
    ensures Sound(Live(f, e)) && MarksAgree(Live(f, e))
  {
    match e
    case Completed(op) =>
      RunsStaySound(f, [op]);
      assert [op][..0] == [] && Run(f, [op]) == Do(f, op);
    case Interrupted(doc, made, n) =>
      if f.emb.Whole? && f.emb.value.width != made.emb.width {
        assert RebuildPlan(f, doc, made).Failure?;
      } else {
        CrashedRebuild(f, doc, made, n);
        RebuildKeepsMarks(f, doc, made);
        LoadsIffSound(Live(f, e));
        MarksFromMeta(f, RebuildPlan(f, doc, made).value, Live(f, e));
      }
    case CutShort(pk, n) =>
      DeleteRemoves(f, pk);
      CrashedDelete(f, pk, Min(n, |DeletePlan(f, pk).value|));
      LoadsIffSound(Live(f, e));
  }

  /** Whether the marks of the rows agree depends on the metadata file alone. */
  lemma MarksFromMeta(f: Files, target: Files, g: Files)
    requires Sound(f) && MarksAgree(f) && Sound(target) && MarksAgree(target) && Sound(g)
    requires g.meta == f.meta || g.meta == target.meta || g == NO_FILES
    ensures MarksAgree(g)
  {
    if g != NO_FILES {
      var h := if g.meta == f.meta then f else target;
      assert |Rows(g)| == |Rows(h)|;
      forall i | 0 <= i < |Rows(g)|
        ensures Rows(g)[i].meta == Rows(h)[i].meta && Rows(h)[i] in Rows(h)
      {
      }
    }
  }
}
