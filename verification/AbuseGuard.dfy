/** The abuse guard: `_guard_block_enabled`, `_visitor_is_blocked`, `block_visitor`, `_guard_on_attempt`
    and the order of gates in `chat` (chat/views.py), `guard_unblock` and `guard_unblock_all`
    (chat/panel.py). Visitor fingerprints and conversation ids are numbers. */
module AbuseGuard {
  import opened Prelude

  type Visitor = nat
  type ConvId = nat

  datatype Conversation = Conversation(visitor: Visitor, blocked: bool, attempts: nat)

  datatype Level = Off | Simple | Veteran

  /** The GuardSettings row; absent means the defaults. */
  datatype Settings = Settings(threshold: int, level: Level)

  /** The rows and the per-visitor sticky cache entries. */
  datatype State = State(rows: map<ConvId, Conversation>, cache: set<Visitor>)

  /** A chat request: who sends it, the conversation id it names (None: a new one is made up), whether
      the text matches the injection patterns, and whether the chat is closed by the operator. */
  datatype Request = Request(visitor: Visitor, named: Option<ConvId>, made: ConvId, suspicious: bool, quotaLocked: bool)

  datatype Outcome = QuotaClosed | AlreadyBlocked | BlockedNow | Refused | Answered

  /** The clamped threshold. */
  function Threshold(row: Option<Settings>): (t: nat)
    ensures 2 <= t <= 20
    ensures row.None? ==> t == 3
    ensures row.Some? && 2 <= row.value.threshold <= 20 ==> t == row.value.threshold
    ensures row.Some? && row.value.threshold == 0 ==> t == 3
    ensures row.Some? && (row.value.threshold < 0 || row.value.threshold == 1) ==> t == 2
    ensures row.Some? && row.value.threshold > 20 ==> t == 20
  {
    var t := if row.Some? && row.value.threshold != 0 then row.value.threshold else 3;
    Max(2, Min(20, t))
  }

  predicate GuardOff(row: Option<Settings>) {
    row.Some? && row.value.level == Off
  }

  // ---------------------------------------------------------------- specification of one request

  /** Some conversation of this fingerprint is blocked. */
  predicate HasBlockedRow(rows: map<ConvId, Conversation>, v: Visitor) {
    exists c :: c in rows && rows[c].visitor == v && rows[c].blocked
  }

  /** `_visitor_is_blocked`. */
  predicate VisitorBlocked(s: State, v: Visitor) {
    v in s.cache || HasBlockedRow(s.rows, v)
  }

  function ConvOf(s: State, r: Request): ConvId {
    if r.named.Some? then r.named.value else r.made
  }

  /** `_get_or_create_conversation`. */
  function WithConversation(s: State, r: Request): State {
    var c := ConvOf(s, r);
    if c in s.rows then s else s.(rows := s.rows[c := Conversation(r.visitor, false, 0)])
  }

  /** `_guard_on_attempt`. */
  function OnAttempt(s: State, v: Visitor, c: ConvId, row: Option<Settings>): (State, bool)
    requires c in s.rows
  {
    if GuardOff(row) then (s, false)
    else
      var n := s.rows[c].attempts + 1;
      if n >= Threshold(row) then
        (State(s.rows[c := s.rows[c].(attempts := n, blocked := true)], s.cache + {v}), true)
      else (s.(rows := s.rows[c := s.rows[c].(attempts := n)]), false)
  }

  /** The gates of `chat` up to the call of the RAG service. The injection test reads the same
      settings row and finds nothing when the guard is off. */
  function Chat(s: State, r: Request, row: Option<Settings>): (State, Outcome) {
    if r.quotaLocked then (s, QuotaClosed)
    else
      var t := WithConversation(s, r);
      var c := ConvOf(s, r);
      if t.rows[c].blocked || VisitorBlocked(t, r.visitor) then (t, AlreadyBlocked)
      else if r.suspicious && !GuardOff(row) then
        var (u, now) := OnAttempt(t, r.visitor, c, row);
        (u, if now then BlockedNow else Refused)
      else (t, Answered)
  }

  function Unblocked(conv: Conversation): Conversation {
    conv.(blocked := false, attempts := 0)
  }

  /** `guard_unblock`: 404 for an unknown conversation; the operator's own fingerprint is cleared too. */
  function Unblock(s: State, c: ConvId, operator: Visitor): State {
    if c !in s.rows then s
    else State(s.rows[c := Unblocked(s.rows[c])], s.cache - {s.rows[c].visitor, operator})
  }

  function UnblockRows(rows: map<ConvId, Conversation>): map<ConvId, Conversation> {
    map c | c in rows :: if rows[c].blocked then Unblocked(rows[c]) else rows[c]
  }

  function BlockedVisitors(rows: map<ConvId, Conversation>): set<Visitor> {
    set c | c in rows && rows[c].blocked :: rows[c].visitor
  }

  /** `guard_unblock_all`. Its sweep for stray entries looks for keys that begin with the entry's own
      prefix; Django stores keys behind a version prefix, so the sweep never finds one. */
  function UnblockAll(s: State): State {
    State(UnblockRows(s.rows), s.cache - BlockedVisitors(s.rows))
  }

  // ---------------------------------------------------------------- the views

  class GuardedChat {
    var rows: map<ConvId, Conversation>
    var cache: set<Visitor>

    constructor ()
      ensures Model() == State(map[], {})
    {
      rows, cache := map[], {};
    }

    ghost function Model(): State
      reads this
    {
      State(rows, cache)
    }

    method VisitorIsBlocked(v: Visitor) returns (blocked: bool)
      ensures blocked == VisitorBlocked(Model(), v)
    {
      if v in cache {
        return true;
      }
      return exists c :: c in rows && rows[c].visitor == v && rows[c].blocked;
    }

    method GuardOnAttempt(v: Visitor, c: ConvId, row: Option<Settings>) returns (blockedNow: bool)
      requires c in rows
      modifies this
      ensures (Model(), blockedNow) == OnAttempt(old(Model()), v, c, row)
    {
      var t := if row.Some? && row.value.threshold != 0 then row.value.threshold else 3;
      t := Max(2, Min(20, t));
      if row.Some? && row.value.level == Off {
        return false;
      }
      var conv := rows[c];
      conv := conv.(attempts := conv.attempts + 1);
      if conv.attempts >= t {
        conv := conv.(blocked := true);
        rows := rows[c := conv];
        cache := cache + {v};
        return true;
      }
      rows := rows[c := conv];
      return false;
    }

    method ChatGates(r: Request, row: Option<Settings>) returns (outcome: Outcome)
      modifies this
      ensures (Model(), outcome) == Chat(old(Model()), r, row)
    {
      if r.quotaLocked {
        return QuotaClosed;
      }
      var c := if r.named.Some? then r.named.value else r.made;
      if c !in rows {
        rows := rows[c := Conversation(r.visitor, false, 0)];
      }
      var blocked := rows[c].blocked;
      if !blocked {
        blocked := VisitorIsBlocked(r.visitor);
      }
      if blocked {
        return AlreadyBlocked;
      }
      if r.suspicious && !(row.Some? && row.value.level == Off) {
        var blockedNow := GuardOnAttempt(r.visitor, c, row);
        return if blockedNow then BlockedNow else Refused;
      }
      return Answered;
    }

    method GuardUnblock(c: ConvId, operator: Visitor)
      modifies this
      ensures Model() == Unblock(old(Model()), c, operator)
    {
      if c !in rows {
        return;
      }
      var v := rows[c].visitor;
      rows := rows[c := rows[c].(blocked := false, attempts := 0)];
      cache := cache - {v};
      if operator != v {
        cache := cache - {operator};
      }
      var others := exists k :: k in rows && rows[k].visitor == v && rows[k].blocked;
      if !others {
        cache := cache - {v};
      }
    }

    method GuardUnblockAll()
      modifies this
      ensures Model() == UnblockAll(old(Model()))
    {
      var blocked := BlockedVisitors(rows);
      rows := UnblockRows(rows);
      cache := cache - blocked;
    }
  }

  // ---------------------------------------------------------------- runs

  datatype Action =
    | DoChat(request: Request, row: Option<Settings>)
    | CacheExpires(visitor: Visitor)
    | DoUnblock(conv: ConvId, operator: Visitor)
    | DoUnblockAll

  function Step(s: State, a: Action): State {
    match a
    case DoChat(r, row) => Chat(s, r, row).0
    case CacheExpires(v) => s.(cache := s.cache - {v})
    case DoUnblock(c, op) => Unblock(s, c, op)
    case DoUnblockAll => UnblockAll(s)
  }

  function Run(s: State, actions: seq<Action>): State
    decreases |actions|
  {
    if actions == [] then s else Run(Step(s, actions[0]), actions[1..])
  }

  /** The action ends the block of conversation c. */
  predicate Frees(s: State, a: Action, c: ConvId) {
    (a.DoUnblock? && a.conv == c)
    || (a.DoUnblockAll? && c in s.rows && s.rows[c].blocked)
  }

  predicate NeverFreed(s: State, actions: seq<Action>, c: ConvId)
    decreases |actions|
  {
    actions == [] || (!Frees(s, actions[0], c) && NeverFreed(Step(s, actions[0]), actions[1..], c))
  }

  // ---------------------------------------------------------------- a blocked visitor stays blocked

  predicate IsBlocked(s: State, c: ConvId, v: Visitor) {
    c in s.rows && s.rows[c].blocked && s.rows[c].visitor == v
  }

  lemma BlockPersists(s: State, a: Action, c: ConvId, v: Visitor)
    requires IsBlocked(s, c, v) && !Frees(s, a, c)
    ensures IsBlocked(Step(s, a), c, v)
  {
    if a.DoChat? && !a.request.quotaLocked {
      var t := WithConversation(s, a.request);
      assert IsBlocked(t, c, v);
    }
  }

  /** None of the visitor's requests, nor any request naming the conversation, gets past the guard. */
  predicate ShutOut(s: State, actions: seq<Action>, c: ConvId, v: Visitor)
    decreases |actions|
  {
    actions == []
    || ((actions[0].DoChat? && (actions[0].request.visitor == v || ConvOf(s, actions[0].request) == c) ==>
           Chat(s, actions[0].request, actions[0].row).1 == AlreadyBlocked
           || Chat(s, actions[0].request, actions[0].row).1 == QuotaClosed)
        && ShutOut(Step(s, actions[0]), actions[1..], c, v))
  }

  /** From the moment a conversation is blocked until it is unblocked, no request of its visitor, under
      whatever conversation id, and no request in that conversation, by whatever visitor, is answered,
      refused or counted: whatever the settings, cache expiries and other unblocks in between. */
  lemma {:induction false} BlockedStaysOut(s: State, actions: seq<Action>, c: ConvId, v: Visitor)
    requires IsBlocked(s, c, v) && NeverFreed(s, actions, c)
    ensures ShutOut(s, actions, c, v)
    decreases |actions|
  {
    if actions != [] {
      var a := actions[0];
      if a.DoChat? && !a.request.quotaLocked {
        var t := WithConversation(s, a.request);
        assert IsBlocked(t, c, v);
        assert HasBlockedRow(t.rows, v);
      }
      BlockPersists(s, a, c, v);
      BlockedStaysOut(Step(s, a), actions[1..], c, v);
    }
  }

  /** A conversation belongs to the visitor whose request opened it, for good. */
  lemma NewConversationIsOwn(s: State, r: Request, row: Option<Settings>, c: ConvId)
    ensures var t := Chat(s, r, row).0;
      (c !in s.rows && c in t.rows ==> c == ConvOf(s, r) && t.rows[c].visitor == r.visitor && !r.quotaLocked)
      && (c in s.rows ==> c in t.rows && t.rows[c].visitor == s.rows[c].visitor)
      && (!r.quotaLocked ==> ConvOf(s, r) in t.rows)
  {
  }

  /** Without a named conversation a request opens its own. */
  lemma NamedOrMade(s: State, r: Request)
    ensures ConvOf(s, r) == r.made <==> r.named == None || r.named == Some(r.made)
    ensures r.named != None ==> r.named == Some(ConvOf(s, r))
  {
  }

  /** Who sent the first request in conversation c that was let in. */
  function Opener(actions: seq<Action>, c: ConvId): Option<Visitor> {
    if actions == [] then None
    else
      var earlier := Opener(actions[..|actions| - 1], c);
      var a := actions[|actions| - 1];
      if earlier.Some? then earlier
      else if a.DoChat? && !a.request.quotaLocked
           && (a.request.named == Some(c) || (a.request.named == None && a.request.made == c)) then Some(a.request.visitor)
      else None
  }

  lemma {:induction false} RunSnoc(s: State, actions: seq<Action>, a: Action)
    ensures Run(s, actions + [a]) == Step(Run(s, actions), a)
    decreases |actions|
  {
    if actions == [] {
      assert [] + [a] == [a] && [a][1..] == [];
    } else {
      assert (actions + [a])[0] == actions[0] && (actions + [a])[1..] == actions[1..] + [a];
      RunSnoc(Step(s, actions[0]), actions[1..], a);
    }
  }

  /** Over every run from no rows: a conversation exists exactly when somebody opened it, and is theirs. */
  lemma {:induction false} OpenerOwns(actions: seq<Action>, c: ConvId)
    ensures var rows := Run(State(map[], {}), actions).rows;
      (c in rows <==> Opener(actions, c).Some?)
      && (c in rows ==> Opener(actions, c) == Some(rows[c].visitor))
  {
    if actions != [] {
      var before, a := actions[..|actions| - 1], actions[|actions| - 1];
      var s := Run(State(map[], {}), before);
      OpenerOwns(before, c);
      RunSnoc(State(map[], {}), before, a);
      assert actions == before + [a];
      if a.DoChat? {
        NewConversationIsOwn(s, a.request, a.row, c);
      }
    }
  }

  /** From no rows, over every run: once a request of the visitor who opened its conversation is blocked,
      no later request of that visitor, under whatever id, gets past the guard until that conversation is
      freed, though the sticky entry expire and the settings change. */
  lemma BlockedOpenerStaysOut(before: seq<Action>, r: Request, row: Option<Settings>, after: seq<Action>)
    requires var s := Run(State(map[], {}), before);
      Chat(s, r, row).1 == BlockedNow
      && Opener(before + [DoChat(r, row)], ConvOf(s, r)) == Some(r.visitor)
      && NeverFreed(Chat(s, r, row).0, after, ConvOf(s, r))
    ensures var s := Run(State(map[], {}), before);
      ShutOut(Chat(s, r, row).0, after, ConvOf(s, r), r.visitor)
  {
    var s := Run(State(map[], {}), before);
    var t := Chat(s, r, row).0;
    RunSnoc(State(map[], {}), before, DoChat(r, row));
    OpenerOwns(before + [DoChat(r, row)], ConvOf(s, r));
    BlockedStaysOut(t, after, ConvOf(s, r), r.visitor);
  }

  /** What decides a request that gets past the block check: an attempt is counted, refused below the
      threshold and blocked at it, so the first attempt never blocks; anything else is answered and
      leaves no trace but the conversation. */
  lemma AttemptOutcome(s: State, r: Request, row: Option<Settings>)
    requires !r.quotaLocked && !VisitorBlocked(s, r.visitor)
    requires ConvOf(s, r) in s.rows ==> !s.rows[ConvOf(s, r)].blocked
    ensures var c := ConvOf(s, r);
      var (t, outcome) := Chat(s, r, row);
      (outcome == Answered <==> !r.suspicious || GuardOff(row))
      && (outcome == BlockedNow ==> Attempts(s, c) >= 1 && VisitorBlocked(t, r.visitor) && t.rows[c].blocked)
      && (outcome == BlockedNow <==> r.suspicious && !GuardOff(row) && Attempts(s, c) + 1 >= Threshold(row))
      && Attempts(t, c) == Attempts(s, c) + (if outcome == Answered then 0 else 1)
      && (outcome != BlockedNow ==> t.cache == s.cache && !t.rows[c].blocked)
  {
    var t := WithConversation(s, r);
    assert !HasBlockedRow(t.rows, r.visitor);
  }

  /** One attempt by itself: the guard counts it unless it is off, blocks at the threshold, and touches
      no other conversation and no other visitor's entry. */
  lemma OneAttempt(s: State, v: Visitor, c: ConvId, row: Option<Settings>)
    requires c in s.rows
    ensures var (t, now) := OnAttempt(s, v, c, row);
      t.rows.Keys == s.rows.Keys
      && (forall k :: k in s.rows && k != c ==> t.rows[k] == s.rows[k])
      && (forall u :: u in t.cache <==> u in s.cache || (now && u == v))
      && t.rows[c].visitor == s.rows[c].visitor
      && t.rows[c].attempts == s.rows[c].attempts + (if GuardOff(row) then 0 else 1)
      && (now <==> !GuardOff(row) && t.rows[c].attempts >= Threshold(row))
      && (t.rows[c].blocked <==> s.rows[c].blocked || now)
  {
  }

  // ---------------------------------------------------------------- how many attempts are refused

  /** Under one threshold: an unblocked conversation has fewer attempts than the threshold. */
  predicate AttemptsOk(s: State, t: nat) {
    forall c :: c in s.rows && !s.rows[c].blocked ==> s.rows[c].attempts < t
  }

  predicate FixedThreshold(actions: seq<Action>, t: nat) {
    forall i :: 0 <= i < |actions| && actions[i].DoChat? ==> Threshold(actions[i].row) == t
  }

  lemma AttemptsKept(s: State, a: Action, t: nat)
    requires t >= 2 && AttemptsOk(s, t) && (a.DoChat? ==> Threshold(a.row) == t)
    ensures AttemptsOk(Step(s, a), t)
  {
  }

  function Attempts(s: State, c: ConvId): nat {
    if c in s.rows then s.rows[c].attempts else 0
  }

  /** The requests in conversation c that were refused. */
  function Refusals(s: State, actions: seq<Action>, c: ConvId): nat
    decreases |actions|
  {
    if actions == [] then 0
    else
      (if actions[0].DoChat? && ConvOf(s, actions[0].request) == c
          && Chat(s, actions[0].request, actions[0].row).1 == Refused then 1 else 0)
      + Refusals(Step(s, actions[0]), actions[1..], c)
  }

  /** Between two unblocks of a conversation at most T - 1 attempts are refused, and none once it is blocked. */
  lemma {:induction false} RefusalsBounded(s: State, actions: seq<Action>, c: ConvId, t: nat)
    requires t >= 2 && AttemptsOk(s, t) && FixedThreshold(actions, t) && NeverFreed(s, actions, c)
    ensures c in s.rows && s.rows[c].blocked ==> Refusals(s, actions, c) == 0
    ensures !(c in s.rows && s.rows[c].blocked) ==> Refusals(s, actions, c) + Attempts(s, c) <= t - 1
    decreases |actions|
  {
    if actions != [] {
      var a := actions[0];
      var next := Step(s, a);
      AttemptsKept(s, a, t);
      RefusalsBounded(next, actions[1..], c, t);
      if c in s.rows && s.rows[c].blocked {
        BlockPersists(s, a, c, s.rows[c].visitor);
      } else {
        RefusalCounts(s, a, c);
      }
    }
  }

  /** One action and one conversation: a refusal is one more attempt, and nothing but an unblock takes attempts back. */
  lemma RefusalCounts(s: State, a: Action, c: ConvId)
    requires !Frees(s, a, c) && !(c in s.rows && s.rows[c].blocked)
    ensures var refused := a.DoChat? && ConvOf(s, a.request) == c && Chat(s, a.request, a.row).1 == Refused;
      Attempts(Step(s, a), c) >= Attempts(s, c) + (if refused then 1 else 0)
      && (refused ==> !Step(s, a).rows[c].blocked)
  {
  }

  // ---------------------------------------------------------------- the cache and the rows

  /** Every sticky entry is backed by a blocked conversation of the same visitor. */
  predicate CacheBacked(s: State) {
    forall v :: v in s.cache ==> HasBlockedRow(s.rows, v)
  }

  /** The request comes from the visitor its conversation belongs to. */
  predicate OwnConversation(s: State, r: Request) {
    ConvOf(s, r) in s.rows ==> s.rows[ConvOf(s, r)].visitor == r.visitor
  }

  predicate AllOwn(s: State, actions: seq<Action>)
    decreases |actions|
  {
    actions == []
    || ((actions[0].DoChat? ==> OwnConversation(s, actions[0].request)) && AllOwn(Step(s, actions[0]), actions[1..]))
  }

  lemma RowStays(rows: map<ConvId, Conversation>, rows': map<ConvId, Conversation>, v: Visitor)
    requires HasBlockedRow(rows, v)
    requires forall c :: c in rows && rows[c].visitor == v && rows[c].blocked ==> c in rows' && rows'[c].visitor == v && rows'[c].blocked
    ensures HasBlockedRow(rows', v)
  {
    var c :| c in rows && rows[c].visitor == v && rows[c].blocked;
    assert rows'[c].blocked;
  }

  lemma ChatKeepsRows(s: State, r: Request, row: Option<Settings>, v: Visitor)
    requires HasBlockedRow(s.rows, v)
    ensures HasBlockedRow(Chat(s, r, row).0.rows, v)
  {
    RowStays(s.rows, Chat(s, r, row).0.rows, v);
  }

  /** The request is the last straw in another visitor's open conversation, sent by a visitor without a
      blocked conversation. */
  predicate TripsForeignGuard(s: State, r: Request, row: Option<Settings>) {
    var c := ConvOf(s, r);
    !r.quotaLocked && r.suspicious && !GuardOff(row)
    && c in s.rows && !s.rows[c].blocked && s.rows[c].visitor != r.visitor
    && !HasBlockedRow(s.rows, r.visitor)
    && s.rows[c].attempts + 1 >= Threshold(row)
  }

  /** One request keeps the cache backed exactly when it is not such a last straw. */
  lemma ChatKeepsBackedIff(s: State, r: Request, row: Option<Settings>)
    requires CacheBacked(s)
    ensures CacheBacked(Chat(s, r, row).0) <==> !TripsForeignGuard(s, r, row)
  {
    var (t, outcome) := Chat(s, r, row);
    forall v | v in s.cache
      ensures HasBlockedRow(t.rows, v)
    {
      ChatKeepsRows(s, r, row, v);
    }
    if outcome == BlockedNow {
      var c := ConvOf(s, r);
      var u := WithConversation(s, r);
      assert !HasBlockedRow(u.rows, r.visitor);
      assert t.rows[c].blocked && t.rows[c].visitor == u.rows[c].visitor;
      if u.rows[c].visitor == r.visitor {
        assert HasBlockedRow(t.rows, r.visitor);
      } else {
        forall k | k in t.rows && t.rows[k].visitor == r.visitor
          ensures !t.rows[k].blocked
        {
          assert k in u.rows && u.rows[k] == t.rows[k];
        }
        assert !HasBlockedRow(t.rows, r.visitor);
        assert r.visitor in t.cache;
      }
    }
  }

  /** "Unblock all" unblocks every row, but a sticky entry goes only with a blocked row of its visitor:
      afterwards nobody is blocked exactly when every entry was backed. */
  lemma UnblockAllFreesIff(s: State)
    ensures var t := UnblockAll(s);
      (forall v :: !HasBlockedRow(t.rows, v))
      && (forall v :: VisitorBlocked(t, v) <==> v in s.cache && !HasBlockedRow(s.rows, v))
      && ((forall v :: !VisitorBlocked(t, v)) <==> CacheBacked(s))
  {
    var t := UnblockAll(s);
    forall v
      ensures v in BlockedVisitors(s.rows) <==> HasBlockedRow(s.rows, v)
    {
    }
    assert forall v :: VisitorBlocked(t, v) <==> v in s.cache && !HasBlockedRow(s.rows, v);
  }

  lemma OperatorKeepsBacked(s: State, a: Action)
    requires CacheBacked(s) && !a.DoChat?
    ensures CacheBacked(Step(s, a))
  {
    var t := Step(s, a);
    forall v | v in t.cache
      ensures HasBlockedRow(t.rows, v)
    {
      assert HasBlockedRow(s.rows, v);
      match a
      case CacheExpires(_) =>
      case DoUnblock(c, op) =>
        RowStays(s.rows, t.rows, v);
      case DoUnblockAll =>
    }
  }

  lemma {:induction false} BackedAlways(s: State, actions: seq<Action>)
    requires CacheBacked(s) && AllOwn(s, actions)
    ensures CacheBacked(Run(s, actions))
    decreases |actions|
  {
    if actions != [] {
      var a := actions[0];
      if a.DoChat? {
        ChatKeepsBackedIff(s, a.request, a.row);
      } else {
        OperatorKeepsBacked(s, a);
      }
      BackedAlways(Step(s, a), actions[1..]);
    }
  }

  /** As long as visitors write in their own conversations, a visitor is blocked exactly while one of
      the visitor's conversations is: the cache adds nothing and an unblock takes effect at once. */
  lemma BlockedIffRow(actions: seq<Action>, v: Visitor)
    requires AllOwn(State(map[], {}), actions)
    ensures var s := Run(State(map[], {}), actions);
      VisitorBlocked(s, v) <==> HasBlockedRow(s.rows, v)
  {
    BackedAlways(State(map[], {}), actions);
  }

  /** When a visitor trips the guard in someone else's conversation, unblocking that conversation does
      not let the visitor back in: no row is blocked any more, but the sticky entry is still there. */
  lemma StickyEntryOutlivesRows(operator: Visitor)
    requires operator != 2
    ensures var s := State(map[7 := Conversation(1, false, 1)], {});
      var t := Chat(s, Request(2, Some(7), 0, true, false), Some(Settings(2, Simple)));
      var u := Unblock(t.0, 7, operator);
      t.1 == BlockedNow && VisitorBlocked(u, 2) && forall v :: !HasBlockedRow(u.rows, v)
  {
    var s := State(map[7 := Conversation(1, false, 1)], {});
    var r := Request(2, Some(7), 0, true, false);
    assert WithConversation(s, r) == s;
    assert !HasBlockedRow(s.rows, 2);
    var t := Chat(s, r, Some(Settings(2, Simple)));
    assert t.0.rows == map[7 := Conversation(1, true, 2)];
    assert t.0.cache == {2};
    assert Unblock(t.0, 7, operator).rows == map[7 := Conversation(1, false, 0)];
  }
}
