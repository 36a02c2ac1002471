/** `get_rag_service` (chat/views.py) against concurrent writers of the corpus: requests look at the
    file times without a lock, compare under a thread lock and load under the corpus lock
    (`corpus_lock` in chat/document_pipeline.py). A state machine with one transition per step. */
module RagFreshness {
  import opened Prelude

  datatype File = Chunks | Metadata | Embeddings

  const ALL: set<File> := {Chunks, Metadata, Embeddings}

  /** A file is absent, or was written by the numbered commit; commits count from 1. */
  datatype Content = Absent | Written(commit: nat)

  datatype Files = Files(c: Content, m: Content, e: Content)

  const NOTHING := Files(Absent, Absent, Absent)

  /** A modification time: 0 for an absent file; otherwise the write's number stands for it, as the
      times of different writes differ. */
  function TimeOf(x: Content): nat {
    match x
    case Absent => 0
    case Written(n) => n
  }

  datatype Signature = Signature(c: nat, m: nat, e: nat)

  const NO_TIMES := Signature(0, 0, 0)

  function Newest(sig: Signature): nat {
    Max(sig.c, Max(sig.m, sig.e))
  }

  /** The corpus lock: free, held by a writer that has replaced the given files (an emptying one unlinks
      them), by a writer that is through, or by a loading request. */
  datatype Lock = Free | Writing(emptying: bool, wrote: set<File>) | Finished | LoadedBy(id: nat)

  /** What is in memory: the contents read, and the number of the last commit at that moment. */
  datatype Loaded = Loaded(files: Files, at: nat)

  /** A request. `start` is the last commit when the call began, `sig` the signature it read.
      Stat1..Stat3 look at the files one by one; Deciding and Reading hold the thread lock. */
  datatype Request =
    | Stat1(start: nat)
    | Stat2(start: nat, c: nat)
    | Stat3(start: nat, c: nat, m: nat)
    | Waiting(start: nat, sig: Signature)
    | Deciding(start: nat, sig: Signature)
    | Reading1(start: nat, sig: Signature)
    | Reading2(start: nat, sig: Signature, rc: Content)
    | Reading3(start: nat, sig: Signature, rc: Content, rm: Content)
    | Returned(start: nat, sig: Signature, served: Loaded)
    | Failed(start: nat)

  /** `history` lists the corpus after each commit; the service globals are `service` and `recorded`. */
  datatype State = State(
    disk: Files,
    history: seq<Files>,
    lock: Lock,
    threadLock: Option<nat>,
    service: Option<Loaded>,
    recorded: Option<Signature>,
    requests: map<nat, Request>)

  const INITIAL := State(NOTHING, [NOTHING], Free, None, None, None, map[])

  datatype Action =
    | WriterLocks(emptying: bool)
    | WriterReplaces(file: File)
    | WriterReleases
    | Begin(id: nat)
    | Advance(id: nat)
    | LockTimeout(id: nat)
    | LoadFails(id: nat)

  function Get(t: Files, f: File): Content {
    match f
    case Chunks => t.c
    case Metadata => t.m
    case Embeddings => t.e
  }

  function Replace(t: Files, f: File, x: Content): Files {
    match f
    case Chunks => t.(c := x)
    case Metadata => t.(m := x)
    case Embeddings => t.(e := x)
  }

  function Current(history: seq<Files>): Files
    requires history != []
  {
    history[|history| - 1]
  }

  function New(emptying: bool, history: seq<Files>): Content {
    if emptying then Absent else Written(|history|)
  }

  /** What one step of a request changes besides the disk, which it never touches. */
  datatype Move = Move(
    request: Request,
    lock: Lock,
    threadLock: Option<nat>,
    service: Option<Loaded>,
    recorded: Option<Signature>)

  /** One step of request id in state r; a step that cannot be taken changes nothing. */
  function Next(s: State, id: nat, r: Request): Move
    requires s.history != []
  {
    var stay := Move(r, s.lock, s.threadLock, s.service, s.recorded);
    match r
    case Stat1(start) => stay.(request := Stat2(start, TimeOf(s.disk.c)))
    case Stat2(start, c) => stay.(request := Stat3(start, c, TimeOf(s.disk.m)))
    case Stat3(start, c, m) => stay.(request := Waiting(start, Signature(c, m, TimeOf(s.disk.e))))
    case Waiting(start, sig) =>
      if s.threadLock.Some? then stay
      else stay.(threadLock := Some(id), request := Deciding(start, sig))
    case Deciding(start, sig) =>
      if s.service.Some? && s.recorded == Some(sig) then
        stay.(threadLock := None, request := Returned(start, sig, s.service.value))
      else if s.lock == Free then
        stay.(lock := LoadedBy(id), request := Reading1(start, sig))
      else stay
    case Reading1(start, sig) => stay.(request := Reading2(start, sig, s.disk.c))
    case Reading2(start, sig, rc) => stay.(request := Reading3(start, sig, rc, s.disk.m))
    case Reading3(start, sig, rc, rm) =>
      var loaded := Loaded(Files(rc, rm, s.disk.e), |s.history| - 1);
      Move(Returned(start, sig, loaded), Free, None, Some(loaded), Some(sig))
    case Returned(_, _, _) => stay
    case Failed(_) => stay
  }

  function AdvanceRequest(s: State, id: nat): State
    requires s.history != [] && id in s.requests
  {
    var v := Next(s, id, s.requests[id]);
    s.(lock := v.lock, threadLock := v.threadLock, service := v.service, recorded := v.recorded,
       requests := s.requests[id := v.request])
  }

  /** The writer replaces or unlinks one file; the third one completes the commit. */
  function ReplaceOne(s: State, f: File): State {
    if !s.lock.Writing? || f in s.lock.wrote then s
    else
      var disk := Replace(s.disk, f, New(s.lock.emptying, s.history));
      var wrote := s.lock.wrote + {f};
      if wrote == ALL then s.(disk := disk, history := s.history + [disk], lock := Finished)
      else s.(disk := disk, lock := s.lock.(wrote := wrote))
  }

  /** A corpus is only emptied when there is one. A load may fail at any point, in particular on a
      directory the retriever refuses; it then leaves the old service and its signature. */
  function Step(s: State, a: Action): State
    requires s.history != []
  {
    match a
    case WriterLocks(emptying) =>
      if s.lock == Free && (emptying ==> Current(s.history) != NOTHING) then s.(lock := Writing(emptying, {})) else s
    case WriterReplaces(f) => ReplaceOne(s, f)
    case WriterReleases =>
      if s.lock == Finished || (s.lock.Writing? && s.lock.wrote == {}) then s.(lock := Free) else s
    case Begin(id) =>
      if id in s.requests then s else s.(requests := s.requests[id := Stat1(|s.history| - 1)])
    case Advance(id) =>
      if id in s.requests then AdvanceRequest(s, id) else s
    case LockTimeout(id) =>
      if id in s.requests && s.requests[id].Deciding? then
        s.(threadLock := None, requests := s.requests[id := Failed(s.requests[id].start)])
      else s
    case LoadFails(id) =>
      if id in s.requests && IsReading(s.requests[id]) then
        s.(lock := Free, threadLock := None, requests := s.requests[id := Failed(s.requests[id].start)])
      else s
  }

  function Run(s: State, actions: seq<Action>): (t: State)
    requires s.history != []
    ensures t.history != []
    decreases |actions|
  {
    if actions == [] then s else Run(Step(s, actions[0]), actions[1..])
  }

  // ---------------------------------------------------------------- invariant

  function Expected(s: State, f: File): Content
    requires s.history != []
  {
    if s.lock.Writing? && f in s.lock.wrote then New(s.lock.emptying, s.history) else Get(Current(s.history), f)
  }

  function WholeCommit(n: nat): Files {
    Files(Written(n), Written(n), Written(n))
  }

  /** Every commit is whole; its number tells non-empty ones apart. */
  predicate HistoryOk(history: seq<Files>) {
    history != [] && history[0] == NOTHING
    && forall i :: 0 <= i < |history| ==> history[i] == NOTHING || history[i] == WholeCommit(i)
  }

  /** Only a writer that holds the lock and is not through makes the disk differ from the last commit. */
  predicate DiskOk(s: State) {
    HistoryOk(s.history)
    && s.disk == Files(Expected(s, Chunks), Expected(s, Metadata), Expected(s, Embeddings))
    && (s.lock.Writing? ==> s.lock.wrote != ALL && (s.lock.emptying ==> Current(s.history) != NOTHING))
  }

  predicate LoadedOk(l: Loaded, history: seq<Files>) {
    l.at < |history| && l.files == history[l.at]
  }

  /** The service in memory is one whole commit, no older than any file time stored with it. */
  predicate ServiceOk(service: Option<Loaded>, recorded: Option<Signature>, history: seq<Files>) {
    (service.Some? <==> recorded.Some?)
    && (service.Some? ==> LoadedOk(service.value, history) && Newest(recorded.value) <= service.value.at)
  }

  /** The newest commit a file time can belong to. */
  function Top(s: State): nat
    requires s.history != []
  {
    if s.lock.Writing? && !s.lock.emptying && s.lock.wrote != {} then |s.history| else |s.history| - 1
  }

  /** The corpus was empty after some commit since `start`. */
  ghost predicate EmptySince(history: seq<Files>, start: nat) {
    exists j :: start <= j < |history| && history[j] == NOTHING
  }

  /** What an absent file tells: the corpus has been empty, or is being emptied and these files are gone. */
  ghost predicate Gone(s: State, start: nat, files: set<File>) {
    EmptySince(s.history, start)
    || (start < |s.history| && s.lock.Writing? && s.lock.emptying && files != {} && files <= s.lock.wrote)
  }

  /** A time read during the call is 0 or belongs to a commit no older than the one current at its start. */
  predicate TimeOk(t: nat, start: nat, top: nat) {
    t == 0 || start <= t <= top
  }

  ghost predicate SigOk(s: State, start: nat, sig: Signature)
    requires s.history != []
  {
    start < |s.history| && TimeOk(sig.c, start, Top(s)) && TimeOk(sig.m, start, Top(s)) && TimeOk(sig.e, start, Top(s))
    && (sig == NO_TIMES ==> EmptySince(s.history, start))
  }

  predicate HoldsThread(r: Request) {
    r.Deciding? || IsReading(r)
  }

  predicate IsReading(r: Request) {
    r.Reading1? || r.Reading2? || r.Reading3?
  }

  predicate LocksOk(id: nat, r: Request, lock: Lock, threadLock: Option<nat>) {
    (HoldsThread(r) ==> threadLock == Some(id)) && (IsReading(r) ==> lock == LoadedBy(id))
  }

  ghost predicate SeenOk(s: State, r: Request)
    requires s.history != []
  {
    match r
    case Stat1(start) => start < |s.history|
    case Stat2(start, c) =>
      start < |s.history| && TimeOk(c, start, Top(s)) && (c == 0 ==> Gone(s, start, {Chunks}))
    case Stat3(start, c, m) =>
      start < |s.history| && TimeOk(c, start, Top(s)) && TimeOk(m, start, Top(s))
      && (c == 0 && m == 0 ==> Gone(s, start, {Chunks, Metadata}))
    case Waiting(start, sig) => SigOk(s, start, sig)
    case Deciding(start, sig) => SigOk(s, start, sig)
    case Reading1(start, sig) => SigOk(s, start, sig)
    case Reading2(start, sig, rc) => SigOk(s, start, sig) && rc == s.disk.c
    case Reading3(start, sig, rc, rm) => SigOk(s, start, sig) && rc == s.disk.c && rm == s.disk.m
    case Returned(start, sig, served) =>
      SigOk(s, start, sig) && LoadedOk(served, s.history) && Newest(sig) <= served.at
    case Failed(start) => start < |s.history|
  }

  ghost predicate RequestOk(s: State, id: nat, r: Request)
    requires s.history != []
  {
    LocksOk(id, r, s.lock, s.threadLock) && SeenOk(s, r)
  }

  ghost predicate Invariant(s: State) {
    DiskOk(s) && ServiceOk(s.service, s.recorded, s.history)
    && forall id :: id in s.requests ==> RequestOk(s, id, s.requests[id])
  }

  // ---------------------------------------------------------------- writers

  /** t is later than s: the history grew, nothing seen is taken back. */
  ghost predicate Later(s: State, t: State) {
    s.history != [] && s.history <= t.history && Top(s) <= Top(t)
    && forall start, files :: Gone(s, start, files) ==> Gone(t, start, files)
  }

  lemma EmptySinceStays(a: seq<Files>, b: seq<Files>, start: nat)
    requires a <= b && EmptySince(a, start)
    ensures EmptySince(b, start)
  {
    var j :| start <= j < |a| && a[j] == NOTHING;
    assert b[j] == NOTHING;
  }

  lemma SeenStays(s: State, t: State, r: Request)
    requires Later(s, t) && SeenOk(s, r) && (IsReading(r) ==> s.disk == t.disk)
    ensures SeenOk(t, r)
  {
    forall start | EmptySince(s.history, start)
      ensures EmptySince(t.history, start)
    {
      EmptySinceStays(s.history, t.history, start);
    }
    if r.Returned? {
      assert s.history[r.served.at] == t.history[r.served.at];
    }
  }

  lemma ThirdFile(s: State, f: File)
    requires DiskOk(s) && s.lock.Writing? && f !in s.lock.wrote && s.lock.wrote + {f} == ALL
    ensures var t := ReplaceOne(s, f);
      DiskOk(t) && Current(t.history) == (if s.lock.emptying then NOTHING else WholeCommit(|s.history|))
  {
    var x := New(s.lock.emptying, s.history);
    assert Chunks in s.lock.wrote + {f} && Metadata in s.lock.wrote + {f} && Embeddings in s.lock.wrote + {f};
    assert Replace(s.disk, f, x) == Files(x, x, x);
  }

  lemma ReplaceKeepsDisk(s: State, f: File)
    requires DiskOk(s)
    ensures DiskOk(ReplaceOne(s, f)) && s.history <= ReplaceOne(s, f).history
  {
    if s.lock.Writing? && f !in s.lock.wrote && s.lock.wrote + {f} == ALL {
      ThirdFile(s, f);
    }
  }

  lemma ReplaceIsLater(s: State, f: File)
    requires DiskOk(s)
    ensures Later(s, ReplaceOne(s, f))
  {
    var t := ReplaceOne(s, f);
    ReplaceKeepsDisk(s, f);
    forall start, files | Gone(s, start, files)
      ensures Gone(t, start, files)
    {
      if EmptySince(s.history, start) {
        EmptySinceStays(s.history, t.history, start);
      } else if t.lock == Finished {
        ThirdFile(s, f);
        assert t.history[|t.history| - 1] == NOTHING;
      }
    }
  }

  lemma WriterIsLater(s: State, a: Action)
    requires DiskOk(s) && (a.WriterLocks? || a.WriterReplaces? || a.WriterReleases?)
    ensures DiskOk(Step(s, a)) && Later(s, Step(s, a))
  {
    if a.WriterReplaces? {
      ReplaceKeepsDisk(s, a.file);
      ReplaceIsLater(s, a.file);
    }
  }

  // ---------------------------------------------------------------- requests

  lemma AllThree(files: set<File>)
    requires Chunks in files && Metadata in files && Embeddings in files
    ensures files == ALL
  {
    forall f: File
      ensures f in ALL
    {
      match f
      case Chunks =>
      case Metadata =>
      case Embeddings =>
    }
  }

  /** Looking at one more file. */
  lemma LookingKeeps(s: State, id: nat, r: Request)
    requires DiskOk(s) && ServiceOk(s.service, s.recorded, s.history) && RequestOk(s, id, r)
    requires r.Stat1? || r.Stat2? || r.Stat3?
    ensures SeenOk(s, Next(s, id, r).request)
  {
    assert Current(s.history) == NOTHING ==> EmptySince(s.history, r.start);
    if r.Stat3? && s.lock.Writing? && {Chunks, Metadata} <= s.lock.wrote {
      assert Chunks in s.lock.wrote && Metadata in s.lock.wrote;
      if Embeddings in s.lock.wrote {
        AllThree(s.lock.wrote);
      }
    }
  }

  lemma ReadingKeeps(s: State, id: nat, r: Request)
    requires DiskOk(s) && ServiceOk(s.service, s.recorded, s.history) && RequestOk(s, id, r) && IsReading(r)
    ensures SeenOk(s, Next(s, id, r).request)
    ensures ServiceOk(Next(s, id, r).service, Next(s, id, r).recorded, s.history)
  {
    assert s.disk == Current(s.history);
  }

  lemma DecidingKeeps(s: State, id: nat, r: Request)
    requires DiskOk(s) && ServiceOk(s.service, s.recorded, s.history) && RequestOk(s, id, r)
    requires r.Waiting? || r.Deciding? || r.Returned? || r.Failed?
    ensures SeenOk(s, Next(s, id, r).request)
    ensures ServiceOk(Next(s, id, r).service, Next(s, id, r).recorded, s.history)
  {
  }

  /** A request's own step touches no lock but its own, and no other request notices. */
  lemma AdvanceFrame(s: State, id: nat)
    requires DiskOk(s) && id in s.requests && RequestOk(s, id, s.requests[id])
    ensures var t := AdvanceRequest(s, id);
      DiskOk(t) && Later(s, t) && s.disk == t.disk && s.history == t.history
      && (t.lock == s.lock || s.lock == LoadedBy(id) || s.lock == Free)
      && (t.threadLock == s.threadLock || s.threadLock == Some(id) || s.threadLock == None)
      && LocksOk(id, t.requests[id], t.lock, t.threadLock)
  {
    var t := AdvanceRequest(s, id);
    assert s.lock.Writing? ==> t.lock == s.lock;
  }

  lemma AdvanceKeeps(s: State, id: nat)
    requires Invariant(s) && id in s.requests
    ensures Invariant(AdvanceRequest(s, id))
  {
    var r := s.requests[id];
    var t := AdvanceRequest(s, id);
    assert RequestOk(s, id, r);
    AdvanceFrame(s, id);
    OwnStep(s, id, r);
    forall other | other in t.requests
      ensures RequestOk(t, other, t.requests[other])
    {
      if other == id {
        SeenSameDisk(s, t, t.requests[id]);
      } else {
        assert RequestOk(s, other, s.requests[other]);
        SeenStays(s, t, s.requests[other]);
      }
    }
  }

  lemma OwnStep(s: State, id: nat, r: Request)
    requires DiskOk(s) && ServiceOk(s.service, s.recorded, s.history) && RequestOk(s, id, r)
    ensures SeenOk(s, Next(s, id, r).request)
    ensures ServiceOk(Next(s, id, r).service, Next(s, id, r).recorded, s.history)
  {
    if IsReading(r) {
      ReadingKeeps(s, id, r);
    } else if r.Stat1? || r.Stat2? || r.Stat3? {
      LookingKeeps(s, id, r);
    } else {
      DecidingKeeps(s, id, r);
    }
  }

  lemma SeenSameDisk(s: State, t: State, r: Request)
    requires Later(s, t) && s.disk == t.disk && SeenOk(s, r)
    ensures SeenOk(t, r)
  {
    SeenStays(s, t, r);
  }

  lemma WriterKeeps(s: State, a: Action)
    requires Invariant(s) && (a.WriterLocks? || a.WriterReplaces? || a.WriterReleases?)
    ensures Invariant(Step(s, a))
  {
    var t := Step(s, a);
    WriterIsLater(s, a);
    ServiceStays(s.service, s.recorded, s.history, t.history);
    forall id | id in t.requests
      ensures RequestOk(t, id, t.requests[id])
    {
      assert RequestOk(s, id, s.requests[id]);
      SeenStays(s, t, s.requests[id]);
    }
  }

  lemma ServiceStays(service: Option<Loaded>, recorded: Option<Signature>, a: seq<Files>, b: seq<Files>)
    requires ServiceOk(service, recorded, a) && a <= b
    ensures ServiceOk(service, recorded, b)
  {
  }

  /** Any step keeps the invariant. */
  lemma StepKeeps(s: State, a: Action)
    requires Invariant(s)
    ensures Invariant(Step(s, a))
  {
    match a
    case WriterLocks(_) => WriterKeeps(s, a);
    case WriterReplaces(_) => WriterKeeps(s, a);
    case WriterReleases => WriterKeeps(s, a);
    case Advance(id) =>
      if id in s.requests {
        AdvanceKeeps(s, id);
      }
    case Begin(id) => BookkeepingKeeps(s, a);
    case LockTimeout(id) => BookkeepingKeeps(s, a);
    case LoadFails(id) => BookkeepingKeeps(s, a);
  }

  lemma BookkeepingKeeps(s: State, a: Action)
    requires Invariant(s) && (a.Begin? || a.LockTimeout? || a.LoadFails?)
    ensures Invariant(Step(s, a))
  {
    var t := Step(s, a);
    assert Later(s, t);
    forall other | other in t.requests
      ensures RequestOk(t, other, t.requests[other])
    {
      if other in s.requests {
        assert RequestOk(s, other, s.requests[other]);
        SeenSameDisk(s, t, s.requests[other]);
        if a.id in s.requests {
          assert RequestOk(s, a.id, s.requests[a.id]);
        }
      }
    }
  }

  lemma {:induction false} RunKeeps(s: State, actions: seq<Action>)
    requires Invariant(s)
    ensures Invariant(Run(s, actions))
    decreases |actions|
  {
    if actions != [] {
      StepKeeps(s, actions[0]);
      RunKeeps(Step(s, actions[0]), actions[1..]);
    }
  }

  lemma InitialOk()
    ensures Invariant(INITIAL)
  {
  }

  // ---------------------------------------------------------------- what a request is served

  /** The contents served were the whole corpus at some moment since the call began. */
  ghost predicate Fresh(history: seq<Files>, start: nat, served: Loaded) {
    exists j :: start <= j < |history| && history[j] == served.files
  }

  /** The service was recorded under the times of absent files, holds a corpus nevertheless, and that
      corpus was no longer current when the call began. */
  predicate Armed(service: Option<Loaded>, recorded: Option<Signature>, committed: nat) {
    service.Some? && recorded == Some(NO_TIMES) && service.value.files != NOTHING && service.value.at < committed
  }

  lemma FreshUnlessArmed(s: State, start: nat, sig: Signature, served: Loaded)
    requires HistoryOk(s.history) && SigOk(s, start, sig) && LoadedOk(served, s.history) && Newest(sig) <= served.at
    ensures Fresh(s.history, start, served) <==> !Armed(Some(served), Some(sig), start)
  {
    if served.at >= start {
      assert s.history[served.at] == served.files;
    } else if sig == NO_TIMES && served.files == NOTHING {
      var j :| start <= j < |s.history| && s.history[j] == NOTHING;
    } else if sig == NO_TIMES {
      forall j | start <= j < |s.history|
        ensures s.history[j] != served.files
      {
      }
    }
  }

  /** Under every interleaving of writers and requests a request is served one whole commit, no older
      than any file time it read. What it is served was current since the call began, also when it read
      the times while a writer was between two files, except exactly when the service in memory was
      recorded under absent files and held a corpus that had been superseded before the call. */
  lemma NeverTornStaleIff(actions: seq<Action>, id: nat)
    requires id in Run(INITIAL, actions).requests && Run(INITIAL, actions).requests[id].Returned?
    ensures var s := Run(INITIAL, actions);
      var r := s.requests[id];
      r.served.at < |s.history| && r.served.files == s.history[r.served.at]
      && Newest(r.sig) <= r.served.at
      && (Fresh(s.history, r.start, r.served) <==> !Armed(Some(r.served), Some(r.sig), r.start))
  {
    InitialOk();
    RunKeeps(INITIAL, actions);
    var s := Run(INITIAL, actions);
    assert RequestOk(s, id, s.requests[id]);
    FreshUnlessArmed(s, s.requests[id].start, s.requests[id].sig, s.requests[id].served);
  }

  /** Between the begin of request id in state s and now (t): the service is still that of s or was
      loaded since, and so was what the request was served. */
  predicate Since(s: State, t: State, id: nat) {
    |s.history| > 0 && |s.history| <= |t.history|
    && ((t.service == s.service && t.recorded == s.recorded)
        || (t.service.Some? && t.service.value.at >= |s.history| - 1))
    && id in t.requests && t.requests[id].start == |s.history| - 1
    && (t.requests[id].Returned? ==>
          t.requests[id].served.at >= |s.history| - 1
          || (s.service == Some(t.requests[id].served) && s.recorded == Some(t.requests[id].sig)))
  }

  lemma SinceStep(s: State, t: State, a: Action, id: nat)
    requires Since(s, t, id)
    ensures Since(s, Step(t, a), id)
  {
    if a.Advance? && a.id in t.requests {
      var r := t.requests[a.id];
      var v := Next(t, a.id, r);
      assert v.request.start == r.start;
    }
  }

  lemma {:induction false} SinceRun(s: State, t: State, actions: seq<Action>, id: nat)
    requires Since(s, t, id)
    ensures Since(s, Run(t, actions), id)
    decreases |actions|
  {
    if actions != [] {
      SinceStep(s, t, actions[0], id);
      SinceRun(s, Step(t, actions[0]), actions[1..], id);
    }
  }

  lemma {:induction false} RunAppend(s: State, a: seq<Action>, b: seq<Action>)
    requires s.history != []
    ensures Run(s, a + b) == Run(Run(s, a), b)
    decreases |a|
  {
    if a == [] {
      assert a + b == b;
    } else {
      assert (a + b)[0] == a[0] && (a + b)[1..] == a[1..] + b;
      RunAppend(Step(s, a[0]), a[1..], b);
    }
  }

  /** The request id, begun in state s, has returned something stale after `more`. */
  ghost predicate ServedStale(s: State, id: nat, more: seq<Action>)
    requires s.history != []
  {
    var t := Run(Step(s, Begin(id)), more);
    id in t.requests && t.requests[id].Returned? && !Fresh(t.history, t.requests[id].start, t.requests[id].served)
  }

  /** A request that is served something stale found the service armed when it began, whatever happened in between. */
  lemma StaleBeganArmed(s: State, id: nat, more: seq<Action>)
    requires Invariant(s) && id !in s.requests && ServedStale(s, id, more)
    ensures Armed(s.service, s.recorded, |s.history| - 1)
  {
    var begun := Step(s, Begin(id));
    var t := Run(begun, more);
    StepKeeps(s, Begin(id));
    RunKeeps(begun, more);
    SinceRun(s, begun, more, id);
    var r := t.requests[id];
    assert RequestOk(t, id, r);
    FreshUnlessArmed(t, r.start, r.sig, r.served);
  }

  lemma RunOne(s: State, a: Action, more: seq<Action>)
    requires s.history != []
    ensures Run(s, [a] + more) == Run(Step(s, a), more)
  {
    assert ([a] + more)[1..] == more;
  }

  function Alone(id: nat): seq<Action> {
    [Advance(id)] + ([Advance(id)] + ([Advance(id)] + ([Advance(id)] + ([Advance(id)] + []))))
  }

  /** A request alone with an absent corpus and a service recorded under absent files is served that service. */
  lemma AloneHits(s: State, id: nat, start: nat)
    requires s.history != [] && s.disk == NOTHING && s.threadLock == None
    requires id in s.requests && s.requests[id] == Stat1(start)
    requires s.service.Some? && s.recorded == Some(NO_TIMES)
    ensures var t := Run(s, Alone(id));
      t.history == s.history && id in t.requests && t.requests[id] == Returned(start, NO_TIMES, s.service.value)
  {
    var a := Advance(id);
    var s1 := Step(s, a);
    var s2 := Step(s1, a);
    var s3 := Step(s2, a);
    var s4 := Step(s3, a);
    var s5 := Step(s4, a);
    RunOne(s, a, [a] + ([a] + ([a] + ([a] + []))));
    RunOne(s1, a, [a] + ([a] + ([a] + [])));
    RunOne(s2, a, [a] + ([a] + []));
    RunOne(s3, a, [a] + []);
    RunOne(s4, a, []);
    assert s1.requests[id] == Stat2(start, 0);
    assert s2.requests[id] == Stat3(start, 0, 0);
    assert s3.requests[id] == Waiting(start, NO_TIMES);
    assert s4.requests[id] == Deciding(start, NO_TIMES);
    assert s5.requests[id] == Returned(start, NO_TIMES, s.service.value);
  }

  function EmptyAll(): seq<Action> {
    [WriterLocks(true)] + ([WriterReplaces(Chunks)] + ([WriterReplaces(Metadata)] + ([WriterReplaces(Embeddings)]
    + ([WriterReleases] + []))))
  }

  /** A delete of the last document, undisturbed. */
  lemma EmptyAllWorks(s: State)
    requires DiskOk(s) && s.lock == Free && Current(s.history) != NOTHING
    ensures Run(s, EmptyAll()) == s.(disk := NOTHING, history := s.history + [NOTHING])
  {
    var s1 := Step(s, WriterLocks(true));
    var s2 := Step(s1, WriterReplaces(Chunks));
    var s3 := Step(s2, WriterReplaces(Metadata));
    var s4 := Step(s3, WriterReplaces(Embeddings));
    RunOne(s, WriterLocks(true), EmptyAll()[1..]);
    assert EmptyAll() == [WriterLocks(true)] + EmptyAll()[1..];
    RunOne(s1, WriterReplaces(Chunks), EmptyAll()[2..]);
    assert EmptyAll()[1..] == [WriterReplaces(Chunks)] + EmptyAll()[2..];
    RunOne(s2, WriterReplaces(Metadata), EmptyAll()[3..]);
    assert EmptyAll()[2..] == [WriterReplaces(Metadata)] + EmptyAll()[3..];
    RunOne(s3, WriterReplaces(Embeddings), EmptyAll()[4..]);
    assert EmptyAll()[3..] == [WriterReplaces(Embeddings)] + EmptyAll()[4..];
    RunOne(s4, WriterReleases, []);
    assert EmptyAll()[4..] == [WriterReleases] + [];
    assert s3.lock.wrote == {Chunks, Metadata} && s3.lock.wrote != ALL;
    AllThree(s3.lock.wrote + {Embeddings});
  }

  lemma ArmedServesStale(s: State, id: nat)
    requires Invariant(s) && id !in s.requests && s.lock == Free && s.threadLock == None
    requires Armed(s.service, s.recorded, |s.history| - 1)
    ensures exists more :: ServedStale(s, id, more)
  {
    var begun := Step(s, Begin(id));
    var start := |s.history| - 1;
    StepKeeps(s, Begin(id));
    var more := if s.disk == NOTHING then Alone(id) else EmptyAll() + Alone(id);
    if s.disk == NOTHING {
      AloneHits(begun, id, start);
    } else {
      EmptyAllWorks(begun);
      RunAppend(begun, EmptyAll(), Alone(id));
      AloneHits(Run(begun, EmptyAll()), id, start);
    }
    RunKeeps(begun, more);
    var t := Run(begun, more);
    assert RequestOk(t, id, t.requests[id]);
    FreshUnlessArmed(t, start, NO_TIMES, s.service.value);
    assert ServedStale(s, id, more);
  }

  ghost predicate Reached(s: State) {
    exists actions :: s == Run(INITIAL, actions)
  }

  lemma ReachedStep(s: State, a: Action)
    requires Reached(s)
    ensures s.history != [] && Reached(Step(s, a))
  {
    var actions :| s == Run(INITIAL, actions);
    RunAppend(INITIAL, actions, [a]);
    RunOne(s, a, []);
    assert [a] + [] == [a];
    assert Step(s, a) == Run(INITIAL, actions + [a]);
  }

  /** When may the next request be served a superseded corpus? In every reachable state in which nobody
      holds a lock: exactly when the service is armed. */
  lemma StaleIffArmed(s: State, id: nat)
    requires Reached(s) && id !in s.requests && s.lock == Free && s.threadLock == None
    ensures s.history != []
    ensures (exists more :: ServedStale(s, id, more)) <==> Armed(s.service, s.recorded, |s.history| - 1)
  {
    var actions :| s == Run(INITIAL, actions);
    InitialOk();
    RunKeeps(INITIAL, actions);
    if more :| ServedStale(s, id, more) {
      StaleBeganArmed(s, id, more);
    }
    if Armed(s.service, s.recorded, |s.history| - 1) {
      ArmedServesStale(s, id);
    }
  }

  /** One document was added and deleted, and the service still holds it. */
  ghost predicate IsAfterDelete(s: State) {
    Reached(s) && s.history == [NOTHING, WholeCommit(1), NOTHING] && 2 !in s.requests
    && s.service == Some(Loaded(WholeCommit(1), 1))
  }

  /** It happens: request 1 looks at the empty directory while the first document is being written and
      loads it after the commit; the document is deleted; request 2 looks at the empty directory again
      and is served the deleted document. */
  lemma DeletedDocumentServed()
    ensures exists s :: IsAfterDelete(s) && ServedStale(s, 2, Alone(2))
  {
    var s := RebuildThenDelete();
    var begun := Step(s, Begin(2));
    AloneHits(begun, 2, 2);
    var t := Run(begun, Alone(2));
    assert t.history[2] == NOTHING;
    assert !Fresh(t.history, 2, s.service.value);
    assert ServedStale(s, 2, Alone(2));
  }

  /** Request 1 reads the times of the empty directory while a rebuild holds the lock. */
  lemma LooksWhileEmpty() returns (s: State)
    ensures Reached(s)
    ensures s == State(NOTHING, [NOTHING], Writing(false, {}), None, None, None, map[1 := Waiting(0, NO_TIMES)])
  {
    assert Run(INITIAL, []) == INITIAL;
    s := Take(INITIAL, WriterLocks(false));
    s := Take(s, Begin(1));
    s := Take(s, Advance(1));
    s := Take(s, Advance(1));
    s := Take(s, Advance(1));
  }

  /** The rebuild commits. */
  lemma ThenCommits() returns (s: State)
    ensures Reached(s)
    ensures s == State(WholeCommit(1), [NOTHING, WholeCommit(1)], Free, None, None, None, map[1 := Waiting(0, NO_TIMES)])
  {
    s := LooksWhileEmpty();
    s := Take(s, WriterReplaces(Chunks));
    s := Take(s, WriterReplaces(Metadata));
    assert s.lock.wrote == {Chunks, Metadata} && s.lock.wrote != ALL;
    AllThree(s.lock.wrote + {Embeddings});
    s := Take(s, WriterReplaces(Embeddings));
    s := Take(s, WriterReleases);
  }

  /** Request 1 loads the new corpus under the times of the empty directory. */
  lemma LoadsUnderNoTimes() returns (s: State)
    ensures Reached(s) && s.lock == Free && s.threadLock == None && s.requests.Keys == {1}
    ensures s.history == [NOTHING, WholeCommit(1)] && s.disk == WholeCommit(1)
    ensures s.service == Some(Loaded(WholeCommit(1), 1)) && s.recorded == Some(NO_TIMES)
  {
    s := ThenCommits();
    s := Take(s, Advance(1));
    s := Take(s, Advance(1));
    assert s.requests[1] == Reading1(0, NO_TIMES);
    s := Take(s, Advance(1));
    s := Take(s, Advance(1));
    s := Take(s, Advance(1));
  }

  lemma Take(s: State, a: Action) returns (t: State)
    requires Reached(s)
    ensures s.history != [] && t == Step(s, a) && Reached(t)
  {
    ReachedStep(s, a);
    t := Step(s, a);
  }

  lemma RebuildThenDelete() returns (s: State)
    ensures Reached(s) && s.lock == Free && s.threadLock == None && s.requests.Keys == {1}
    ensures s.history == [NOTHING, WholeCommit(1), NOTHING] && s.disk == NOTHING
    ensures s.service == Some(Loaded(WholeCommit(1), 1)) && s.recorded == Some(NO_TIMES)
  {
    s := LoadsUnderNoTimes();
    s := Take(s, WriterLocks(true));
    s := Take(s, WriterReplaces(Chunks));
    s := Take(s, WriterReplaces(Metadata));
    assert s.lock.wrote == {Chunks, Metadata} && s.lock.wrote != ALL;
    AllThree(s.lock.wrote + {Embeddings});
    s := Take(s, WriterReplaces(Embeddings));
    s := Take(s, WriterReleases);
  }

  /** While a request reads the three files no writer can touch them, and two requests never load at once. */
  lemma LoadsAreExclusive(actions: seq<Action>, i: nat, j: nat)
    requires i in Run(INITIAL, actions).requests && IsReading(Run(INITIAL, actions).requests[i])
    requires j in Run(INITIAL, actions).requests && HoldsThread(Run(INITIAL, actions).requests[j])
    ensures var s := Run(INITIAL, actions);
      i == j && !s.lock.Writing? && s.disk == Current(s.history)
  {
    InitialOk();
    RunKeeps(INITIAL, actions);
    var s := Run(INITIAL, actions);
    assert RequestOk(s, i, s.requests[i]) && RequestOk(s, j, s.requests[j]);
  }

  // ---------------------------------------------------------------- no lock is leaked

  /** The locks are held by exactly the requests that are past taking them. */
  predicate LocksExact(s: State) {
    (forall i :: i in s.requests ==> LocksOk(i, s.requests[i], s.lock, s.threadLock))
    && (s.threadLock.Some? ==> s.threadLock.value in s.requests && HoldsThread(s.requests[s.threadLock.value]))
    && (s.lock.LoadedBy? ==> s.lock.id in s.requests && IsReading(s.requests[s.lock.id]))
  }

  lemma StepKeepsLocks(s: State, a: Action)
    requires s.history != [] && LocksExact(s)
    ensures LocksExact(Step(s, a))
  {
  }

  lemma {:induction false} RunKeepsLocks(s: State, actions: seq<Action>)
    requires s.history != [] && LocksExact(s)
    ensures LocksExact(Run(s, actions))
    decreases |actions|
  {
    if actions != [] {
      StepKeepsLocks(s, actions[0]);
      RunKeepsLocks(Step(s, actions[0]), actions[1..]);
    }
  }

  /** Over every run each lock has a living owner: the thread lock is held exactly when some request is
      deciding or loading, the corpus lock is a request's exactly when that request is loading. A hit, a
      time-out and a failed load all give back what was taken. */
  lemma LocksHaveOwners(s: State)
    requires Reached(s)
    ensures forall i :: s.threadLock == Some(i) <==> i in s.requests && HoldsThread(s.requests[i])
    ensures forall i :: s.lock == LoadedBy(i) <==> i in s.requests && IsReading(s.requests[i])
  {
    var actions :| s == Run(INITIAL, actions);
    RunKeepsLocks(INITIAL, actions);
  }

  /** The steps a request has left when nobody is in its way. */
  function StepsLeft(r: Request): nat {
    match r
    case Stat1(_) => 8
    case Stat2(_, _) => 7
    case Stat3(_, _, _) => 6
    case Waiting(_, _) => 5
    case Deciding(_, _) => 4
    case Reading1(_, _) => 3
    case Reading2(_, _, _) => 2
    case Reading3(_, _, _, _) => 1
    case Returned(_, _, _) => 0
    case Failed(_) => 0
  }

  /** Request id is answered in t, and no lock is left behind. */
  predicate Answered(t: State, id: nat) {
    t.lock == Free && t.threadLock == None && id in t.requests && t.requests[id].Returned?
  }

  lemma {:induction false} FinishesAlone(s: State, id: nat) returns (more: seq<Action>)
    requires s.history != [] && LocksExact(s) && id in s.requests && !s.requests[id].Failed?
    requires s.threadLock == None || s.threadLock == Some(id)
    requires s.lock == Free || s.lock.LoadedBy?
    ensures Answered(Run(s, more), id)
    ensures forall a :: a in more ==> a == Advance(id)
    ensures Run(s, more).requests == s.requests[id := Run(s, more).requests[id]]
    decreases StepsLeft(s.requests[id])
  {
    if s.requests[id].Returned? {
      more := [];
    } else {
      var t := Step(s, Advance(id));
      StepKeepsLocks(s, Advance(id));
      var rest := FinishesAlone(t, id);
      RunOne(s, Advance(id), rest);
      more := [Advance(id)] + rest;
    }
  }

  /** Some of the requests' own steps answer request id and leave both locks free. */
  ghost predicate CanFinish(s: State, id: nat)
    requires s.history != []
  {
    exists more: seq<Action> :: (forall a :: a in more ==> a.Advance?) && Answered(Run(s, more), id)
  }

  /** No deadlock: in every reachable state in which no writer holds the corpus lock, every request that
      has not failed can still be answered, whoever holds the thread lock. */
  lemma EveryoneCanFinish(s: State, id: nat)
    requires Reached(s) && (s.lock == Free || s.lock.LoadedBy?)
    requires id in s.requests && !s.requests[id].Failed?
    ensures s.history != [] && CanFinish(s, id)
  {
    var actions :| s == Run(INITIAL, actions);
    RunKeepsLocks(INITIAL, actions);
    if s.threadLock == None || s.threadLock == Some(id) {
      var more := FinishesAlone(s, id);
    } else {
      var first := FinishesAlone(s, s.threadLock.value);
      var t := Run(s, first);
      RunKeepsLocks(s, first);
      var second := FinishesAlone(t, id);
      RunAppend(s, first, second);
      assert Answered(Run(s, first + second), id);
    }
  }
}
