/** Subscription expiry and renewal: `ensure_plan_state`, `plan_is_expired` (chat/plans.py),
    `plan_activate` (chat/panel.py) and `SiteProfile.is_expired` (chat/models.py). */
module Subscription {
  import opened Prelude
  import opened PyText
  import opened Calendar
  import opened Origins

  datatype Profile = Profile(
    plan: string,
    periodStart: Option<DateTime>,
    periodMonths: int,
    expiresAt: Option<DateTime>,
    suspended: bool,
    suspendedOrigins: string,
    quotaLocked: bool)

  datatype Provider = Provider(publicKey: string, allowedOrigins: string)

  /** `SiteProfile.objects.create()` and `ProviderSettings.objects.create()`. */
  const NEW_PROFILE := Profile("simple", None, 1, None, false, "", false)
  const NEW_PROVIDER := Provider("", "")

  /** The two singleton rows, possibly absent, and the cached expiry flag, possibly evicted. */
  datatype State = State(profile: Option<Profile>, provider: Option<Provider>, cached: Option<bool>)

  /** `SiteProfile.is_expired` at one instant; an absent row is never expired. */
  predicate IsExpired(s: State, now: DateTime) {
    s.profile.Some? && s.profile.value.expiresAt.Some? && Before(s.profile.value.expiresAt.value, now)
  }

  predicate Suspended(s: State) {
    s.profile.Some? && s.profile.value.suspended
  }

  function LiveOrigins(s: State): string {
    if s.provider.Some? then s.provider.value.allowedOrigins else ""
  }

  function Stash(s: State): string {
    if s.profile.Some? then s.profile.value.suspendedOrigins else ""
  }

  function SaveProvider(p: Provider): Provider {
    p.(allowedOrigins := Saved(p.allowedOrigins))
  }

  predicate ValidPlan(plan: string, months: int) {
    (plan == "simple" || plan == "plus" || plan == "pro") && (months == 1 || months == 3 || months == 12)
  }

  // ---------------------------------------------------------------- the three operations

  /** `ensure_plan_state`. */
  function Enforce(s: State, now: DateTime, freshKey: string): State {
    if s.profile.None? || !IsExpired(s, now) || s.profile.value.suspended then s
    else
      var sp := s.profile.value;
      match s.provider
      case None => State(Some(sp.(suspended := true)), None, None)
      case Some(p) =>
        var stash := if sp.suspendedOrigins == "" && !Blank(p.allowedOrigins) then p.allowedOrigins else sp.suspendedOrigins;
        State(Some(sp.(suspended := true, suspendedOrigins := stash)), Some(Provider(freshKey, "")), None)
  }

  /** `plan_is_expired`: the answer. */
  function Answer(s: State, now: DateTime): bool {
    if s.cached.Some? then s.cached.value else IsExpired(s, now)
  }

  /** `plan_is_expired`: the cache afterwards. */
  function Remember(s: State, now: DateTime): State {
    s.(cached := Some(Answer(s, now)))
  }

  /** `plan_activate`; None is the error redirect for an unknown plan or duration. */
  function Activate(s: State, plan: string, months: int, now: DateTime, freshKey: string): Option<State>
    requires Valid(now)
    requires s.profile.Some? && s.profile.value.expiresAt.Some? ==> Valid(s.profile.value.expiresAt.value)
  {
    if !ValidPlan(plan, months) then None
    else
      var sp := if s.profile.Some? then s.profile.value else NEW_PROFILE;
      var p := if s.provider.Some? then s.provider.value else NEW_PROVIDER;
      if sp.suspended || (sp.expiresAt.Some? && Before(sp.expiresAt.value, now)) then
        var origins := if sp.suspendedOrigins != "" then sp.suspendedOrigins else p.allowedOrigins;
        Some(State(
          Some(Profile(plan, Some(now), months, Some(AddMonths(now, months)), false, "", false)),
          Some(SaveProvider(Provider(freshKey, origins))),
          None))
      else
        var from := if sp.expiresAt.Some? then sp.expiresAt.value else now;
        Some(State(
          Some(sp.(plan := plan, periodMonths := months, expiresAt := Some(AddMonths(from, months)), quotaLocked := false,
                   periodStart := if sp.periodStart.None? then Some(now) else sp.periodStart)),
          Some(p),
          None))
  }

  class Deployment {
    var profile: Option<Profile>
    var provider: Option<Provider>
    var cached: Option<bool>

    constructor ()
      ensures Model() == State(None, None, None)
    {
      profile, provider, cached := None, None, None;
    }

    ghost function Model(): State
      reads this
    {
      State(profile, provider, cached)
    }

    method EnsurePlanState(now: DateTime, freshKey: string)
      modifies this
      ensures Model() == Enforce(old(Model()), now, freshKey)
    {
      if profile.None? {
        return;
      }
      var sp := profile.value;
      var expired := sp.expiresAt.Some? && Before(sp.expiresAt.value, now) && !sp.suspended;
      if !expired {
        return;
      }
      if provider.Some? {
        var p := provider.value;
        if sp.suspendedOrigins == "" && !Blank(p.allowedOrigins) {
          sp := sp.(suspendedOrigins := p.allowedOrigins);
        }
        p := p.(allowedOrigins := "");
        p := p.(publicKey := freshKey);
        provider := Some(SaveProvider(p));
      }
      sp := sp.(suspended := true);
      profile := Some(sp);
      cached := None;
    }

    method PlanIsExpired(now: DateTime) returns (expired: bool)
      modifies this
      ensures expired == Answer(old(Model()), now)
      ensures Model() == Remember(old(Model()), now)
    {
      if cached.Some? {
        return cached.value;
      }
      expired := profile.Some? && profile.value.expiresAt.Some? && Before(profile.value.expiresAt.value, now);
      cached := Some(expired);
    }

    method PlanActivate(plan: string, months: int, now: DateTime, freshKey: string) returns (ok: bool)
      requires Valid(now)
      requires profile.Some? && profile.value.expiresAt.Some? ==> Valid(profile.value.expiresAt.value)
      modifies this
      ensures ok <==> Activate(old(Model()), plan, months, now, freshKey).Some?
      ensures Model() == match Activate(old(Model()), plan, months, now, freshKey)
                         case None => old(Model())
                         case Some(s) => s
    {
      if !ValidPlan(plan, months) {
        return false;
      }
      var sp := if profile.Some? then profile.value else NEW_PROFILE;
      var p := if provider.Some? then provider.value else NEW_PROVIDER;
      var from: DateTime;
      if sp.suspended || (sp.expiresAt.Some? && Before(sp.expiresAt.value, now)) {
        if sp.suspendedOrigins != "" {
          p := p.(allowedOrigins := sp.suspendedOrigins);
          sp := sp.(suspendedOrigins := "");
        }
        p := SaveProvider(p.(publicKey := freshKey));
        sp := sp.(suspended := false, periodStart := Some(now));
        from := now;
      } else {
        from := if sp.expiresAt.Some? then sp.expiresAt.value else now;
        if sp.periodStart.None? {
          sp := sp.(periodStart := Some(now));
        }
      }
      provider := Some(p);
      profile := Some(sp.(plan := plan, periodMonths := months, expiresAt := Some(AddMonths(from, months)), quotaLocked := false));
      cached := None;
      return true;
    }
  }

  // ---------------------------------------------------------------- runs

  /** One step of the deployment's life. A request enforces expiry at one instant and asks for the
      flag at the same or a later one; the flag may be evicted at any time. */
  datatype Action =
    | Request(enforcedAt: DateTime, askedAt: DateTime, freshKey: string)
    | CacheTimeout
    | Renew(plan: string, months: int, at: DateTime, key: string)
    | ToggleQuota

  function Starts(a: Action, clock: DateTime): DateTime {
    match a
    case Request(e, _, _) => e
    case Renew(_, _, t, _) => t
    case CacheTimeout => clock
    case ToggleQuota => clock
  }

  function Ends(a: Action, clock: DateTime): DateTime {
    match a
    case Request(_, t, _) => t
    case Renew(_, _, t, _) => t
    case CacheTimeout => clock
    case ToggleQuota => clock
  }

  /** The clock never runs backwards. */
  predicate Timely(a: Action, clock: DateTime) {
    Valid(clock) && Valid(Starts(a, clock)) && Valid(Ends(a, clock))
    && AtMost(clock, Starts(a, clock)) && AtMost(Starts(a, clock), Ends(a, clock))
  }

  function Step(s: State, a: Action): State
    requires a.Renew? ==> Valid(a.at)
    requires s.profile.Some? && s.profile.value.expiresAt.Some? ==> Valid(s.profile.value.expiresAt.value)
  {
    match a
    case Request(e, t, key) => Remember(Enforce(s, e, key), t)
    case CacheTimeout => s.(cached := None)
    case Renew(plan, months, t, key) => (match Activate(s, plan, months, t, key) case None => s case Some(r) => r)
    case ToggleQuota =>
      var sp := if s.profile.Some? then s.profile.value else NEW_PROFILE;
      s.(profile := Some(sp.(quotaLocked := !sp.quotaLocked)))
  }

  predicate WellTimed(s: State) {
    s.profile.Some? && s.profile.value.expiresAt.Some? ==> Valid(s.profile.value.expiresAt.value)
  }

  /** `s` and `clock` are reached from a deployment that is not suspended, has no stash and
      allows the origins `original`, by timely actions. */
  ghost predicate Reached(original: string, s: State, clock: DateTime, actions: seq<Action>)
    decreases |actions|
  {
    if actions == [] then
      Valid(clock) && WellTimed(s) && !Suspended(s) && Stash(s) == "" && LiveOrigins(s) == original && s.cached == None
    else
      var last := actions[|actions| - 1];
      exists s0, c0 :: Reached(original, s0, c0, actions[..|actions| - 1]) && Timely(last, c0)
        && WellTimed(s0) && s == Step(s0, last) && clock == Ends(last, c0)
  }

  /** An activation is refused, and changes nothing, exactly for an unknown plan or duration. */
  lemma RefusedIff(s: State, plan: string, months: int, now: DateTime, key: string)
    requires Valid(now) && WellTimed(s)
    ensures Activate(s, plan, months, now, key) == None
      <==> plan !in {"simple", "plus", "pro"} || months !in {1, 3, 12}
    ensures plan !in {"simple", "plus", "pro"} || months !in {1, 3, 12} ==> Step(s, Renew(plan, months, now, key)) == s
  {
  }

  /** Enforcing expiry never loses origins, from any state, also one an operator left behind: a stash stays,
      live origins are stashed when there is none, and white space alone is not worth stashing. */
  lemma EnforceKeepsStash(s: State, now: DateTime, key: string)
    ensures var r := Enforce(s, now, key);
      (Stash(s) != "" ==> Stash(r) == Stash(s))
      && (Stash(s) == "" && r != s && !Blank(LiveOrigins(s)) ==> Stash(r) == LiveOrigins(s))
      && (Blank(LiveOrigins(s)) ==> Stash(r) == Stash(s))
      && (r != s <==> IsExpired(s, now) && !Suspended(s))
      && (r != s ==> Suspended(r) && LiveOrigins(r) == "" && r.cached == None && (r.provider.Some? <==> s.provider.Some?))
      && IsExpired(r, now) == IsExpired(s, now)
  {
  }

  /** What keeps the cached flag honest. */
  predicate FlagInvariant(s: State, clock: DateTime) {
    Valid(clock) && WellTimed(s)
    && (Suspended(s) ==> IsExpired(s, clock))
    && (s.cached == Some(true) ==> IsExpired(s, clock))
    && (s.cached == Some(false) ==> !Suspended(s))
  }

  lemma TimePasses(s: State, clock: DateTime, later: DateTime)
    requires FlagInvariant(s, clock) && Valid(later) && AtMost(clock, later)
    ensures FlagInvariant(s, later)
  {
  }

  /** An activation moves the expiry strictly past now and past its old value, and ends the suspension. */
  lemma RenewalMovesExpiry(s: State, plan: string, months: int, now: DateTime, key: string)
    requires Valid(now) && WellTimed(s) && ValidPlan(plan, months)
    requires Suspended(s) ==> IsExpired(s, now)
    ensures var r := Activate(s, plan, months, now, key).value;
      r.profile.Some? && r.profile.value.expiresAt.Some? && WellTimed(r)
      && Before(now, r.profile.value.expiresAt.value)
      && (s.profile.Some? && s.profile.value.expiresAt.Some? ==>
            Before(s.profile.value.expiresAt.value, r.profile.value.expiresAt.value))
      && !Suspended(r) && !IsExpired(r, now) && r.cached == None
  {
    AddMonthsMonotone(now, 0, months);
    if s.profile.Some? && s.profile.value.expiresAt.Some? {
      AddMonthsMonotone(s.profile.value.expiresAt.value, 0, months);
    }
  }

  lemma StepKeepsFlag(s: State, clock: DateTime, a: Action)
    requires FlagInvariant(s, clock) && Timely(a, clock)
    ensures FlagInvariant(Step(s, a), Ends(a, clock))
  {
    TimePasses(s, clock, Starts(a, clock));
    match a
    case Request(e, t, key) =>
      var r := Enforce(s, e, key);
      assert FlagInvariant(r, e);
      TimePasses(r, e, t);
    case CacheTimeout =>
    case ToggleQuota =>
    case Renew(plan, months, t, key) =>
      if ValidPlan(plan, months) {
        RenewalMovesExpiry(s, plan, months, t, key);
      }
  }

  lemma {:induction false} ReachedKeepsFlag(original: string, s: State, clock: DateTime, actions: seq<Action>)
    requires Reached(original, s, clock, actions)
    ensures FlagInvariant(s, clock)
    decreases |actions|
  {
    if actions != [] {
      var before := actions[..|actions| - 1];
      var last := actions[|actions| - 1];
      var s0, c0 :| Reached(original, s0, c0, before) && Timely(last, c0)
        && WellTimed(s0) && s == Step(s0, last) && clock == Ends(last, c0);
      ReachedKeepsFlag(original, s0, c0, before);
      StepKeepsFlag(s0, c0, last);
    }
  }

  /** In every reachable state the answer of a request lies between the truth when it enforced
      expiry and the truth when it asked. */
  lemma AnswerIsExact(original: string, s: State, clock: DateTime, actions: seq<Action>,
                      enforcedAt: DateTime, askedAt: DateTime, key: string)
    requires Reached(original, s, clock, actions)
    requires Timely(Request(enforcedAt, askedAt, key), clock)
    ensures var answer := Answer(Enforce(s, enforcedAt, key), askedAt);
      (IsExpired(s, enforcedAt) ==> answer) && (answer ==> IsExpired(s, askedAt))
      && (enforcedAt == askedAt ==> (answer <==> IsExpired(s, askedAt)))
  {
    ReachedKeepsFlag(original, s, clock, actions);
    TimePasses(s, clock, enforcedAt);
    var r := Enforce(s, enforcedAt, key);
    TimePasses(s, clock, askedAt);
    assert IsExpired(s, enforcedAt) ==> IsExpired(s, askedAt);
    assert IsExpired(r, askedAt) == IsExpired(s, askedAt);
  }

  /** Asking without enforcing first is right except exactly when the flag was cached as "not expired"
      and the plan has expired since. */
  lemma AskingAloneIff(original: string, s: State, clock: DateTime, actions: seq<Action>, now: DateTime)
    requires Reached(original, s, clock, actions) && Valid(now) && AtMost(clock, now)
    ensures (Answer(s, now) <==> IsExpired(s, now)) <==> !(s.cached == Some(false) && IsExpired(s, now))
  {
    ReachedKeepsFlag(original, s, clock, actions);
    TimePasses(s, clock, now);
  }

  ghost predicate AsksStale(original: string, s: State, clock: DateTime, actions: seq<Action>, now: DateTime) {
    Reached(original, s, clock, actions) && Valid(now) && AtMost(clock, now) && IsExpired(s, now) && !Answer(s, now)
  }

  /** And this happens: a request at the last instant of the plan caches "not expired". */
  lemma AskingAloneIsStale()
    ensures exists s, clock, actions, now :: AsksStale("", s, clock, actions, now)
  {
    var expiry := DateTime(2025, 5, 1, 0);
    var now := DateTime(2025, 5, 1, 5_000_000);
    var s0 := State(Some(NEW_PROFILE.(expiresAt := Some(expiry))), None, None);
    var a := Request(expiry, expiry, "");
    var s := s0.(cached := Some(false));
    ReachedStart(s0, expiry);
    ReachedNext("", s0, expiry, [], a);
    assert Step(s0, a) == s;
    assert [] + [a] == [a] && LiveOrigins(s0) == "";
    assert AsksStale("", s, expiry, [a], now);
  }

  lemma ReachedStart(s: State, clock: DateTime)
    requires Valid(clock) && WellTimed(s) && !Suspended(s) && Stash(s) == "" && s.cached == None
    ensures Reached(LiveOrigins(s), s, clock, [])
  {
  }

  lemma ReachedNext(original: string, s: State, clock: DateTime, actions: seq<Action>, a: Action)
    requires Reached(original, s, clock, actions) && WellTimed(s) && Timely(a, clock)
    ensures Reached(original, Step(s, a), Ends(a, clock), actions + [a])
  {
    var all := actions + [a];
    assert all[..|all| - 1] == actions && all[|all| - 1] == a;
  }

  // ---------------------------------------------------------------- what an activation does

  /** Renewing a running subscription extends it from its own end and leaves the installation alone;
      coming back from an expiry starts afresh: a new key, a new expiry counted from now, and a first
      metering window that begins at this instant. Either way the chat is reopened. */
  lemma ActivationKinds(original: string, s: State, clock: DateTime, actions: seq<Action>,
                        plan: string, months: int, now: DateTime, key: string)
    requires Reached(original, s, clock, actions) && Timely(Renew(plan, months, now, key), clock)
    requires ValidPlan(plan, months)
    ensures var r := Activate(s, plan, months, now, key).value;
      var sp := r.profile.value;
      !sp.quotaLocked && sp.plan == plan && sp.periodMonths == months && r.provider.Some?
      && (IsExpired(s, now) ==>
            r.provider.value.publicKey == key && sp.expiresAt == Some(AddMonths(now, months))
            && sp.periodStart == Some(now) && GetMonthlyWindow(now, now) == Window(now, AddMonths(now, 1)))
      && (!IsExpired(s, now) ==>
            (s.provider.Some? ==> r.provider == s.provider)
            && (s.profile.Some? && s.profile.value.periodStart.Some? ==> sp.periodStart == s.profile.value.periodStart)
            && (s.profile == None || s.profile.value.periodStart == None ==> sp.periodStart == Some(now))
            && sp.expiresAt == Some(AddMonths(
                 if s.profile == None || s.profile.value.expiresAt == None then now else s.profile.value.expiresAt.value, months)))
  {
    ReachedKeepsFlag(original, s, clock, actions);
    TimePasses(s, clock, now);
    AddMonthsMonotone(now, 0, 1);
  }

  // ---------------------------------------------------------------- the install origins

  /** The given origins are stashed exactly while suspended, and live exactly otherwise. */
  predicate OriginsInvariant(origins: string, s: State) {
    if Suspended(s) then Stash(s) == origins && LiveOrigins(s) == ""
    else Stash(s) == "" && LiveOrigins(s) == origins
  }

  /** A text some save has stored; every provider row holds one. */
  ghost predicate Stored(origins: string) {
    exists text :: origins == Saved(text)
  }

  /** The activation takes the branch that restores the origins, which saves them once more. */
  predicate Resumes(s: State, a: Action) {
    a.Renew? && ValidPlan(a.plan, a.months) && (Suspended(s) || IsExpired(s, a.at))
  }

  lemma StepKeepsOrigins(origins: string, s: State, a: Action)
    requires Stored(origins) && WellTimed(s) && (a.Renew? ==> Valid(a.at))
    requires OriginsInvariant(origins, s)
    ensures OriginsInvariant(if Resumes(s, a) then Saved(origins) else origins, Step(s, a))
  {
    var text :| origins == Saved(text);
    SavedNotBlank(text);
    match a
    case Request(e, t, key) =>
    case CacheTimeout =>
    case ToggleQuota =>
    case Renew(plan, months, t, key) =>
  }

  function Resaved(text: string, n: nat): string {
    if n == 0 then text else Saved(Resaved(text, n - 1))
  }

  function Renewals(actions: seq<Action>): nat {
    if actions == [] then 0
    else Renewals(actions[..|actions| - 1]) + if actions[|actions| - 1].Renew? then 1 else 0
  }

  ghost predicate OriginsResaved(original: string, s: State, limit: nat) {
    exists n: nat :: n <= limit && Stored(Resaved(original, n)) && OriginsInvariant(Resaved(original, n), s)
  }

  /** Over any run of expiries, requests, evictions and activations the install origins are in exactly one
      place, live or stashed, and no more than re-saved: at most once for each activation. */
  lemma {:induction false} OriginsFollow(original: string, s: State, clock: DateTime, actions: seq<Action>)
    requires Stored(original)
    requires Reached(original, s, clock, actions)
    ensures OriginsResaved(original, s, Renewals(actions))
    ensures Stash(s) != "" ==> Suspended(s)
    ensures Suspended(s) ==> LiveOrigins(s) == ""
    decreases |actions|
  {
    if actions == [] {
      assert Resaved(original, 0) == original;
    } else {
      var before := actions[..|actions| - 1];
      var last := actions[|actions| - 1];
      var s0, c0 :| Reached(original, s0, c0, before) && Timely(last, c0)
        && WellTimed(s0) && s == Step(s0, last) && clock == Ends(last, c0);
      OriginsFollow(original, s0, c0, before);
      var n: nat :| n <= Renewals(before) && Stored(Resaved(original, n)) && OriginsInvariant(Resaved(original, n), s0);
      StepKeepsOrigins(Resaved(original, n), s0, last);
      assert Resaved(original, n + 1) == Saved(Resaved(original, n));
    }
  }

  lemma {:induction false} TidyStays(text: string, n: nat)
    requires Tidy(text)
    ensures Resaved(text, n) == text
  {
    if n > 0 {
      TidyStays(text, n - 1);
      SavedIffTidy(text);
    }
  }

  /** Tidy origins survive every run unchanged. */
  lemma OriginsConserved(original: string, s: State, clock: DateTime, actions: seq<Action>)
    requires Tidy(original)
    requires Reached(original, s, clock, actions)
    ensures OriginsInvariant(original, s)
  {
    SavedIffTidy(original);
    OriginsFollow(original, s, clock, actions);
    var n: nat :| n <= Renewals(actions) && OriginsInvariant(Resaved(original, n), s);
    TidyStays(original, n);
  }

  /** One expiry and renewal gives the origins back unchanged exactly when they are tidy. */
  lemma RenewalRestoresIff(s: State, expired: DateTime, renewed: DateTime, plan: string, months: int, k1: string, k2: string)
    requires WellTimed(s) && s.provider.Some? && !Suspended(s) && Stash(s) == ""
    requires IsExpired(s, expired) && Valid(renewed) && ValidPlan(plan, months)
    ensures var r := Activate(Enforce(s, expired, k1), plan, months, renewed, k2).value;
      LiveOrigins(r) == LiveOrigins(s) <==> Tidy(LiveOrigins(s))
  {
    SavedNotBlank(LiveOrigins(s));
    SavedIffTidy(LiveOrigins(s));
  }

  /** A plan that ended on 1 May is found expired on 2 May and renewed at once. */
  lemma ExpireAndRenew(original: string) returns (s: State, clock: DateTime, actions: seq<Action>)
    ensures Reached(original, s, clock, actions)
    ensures OriginsInvariant(original, s) <==> Tidy(original)
  {
    var expiry := DateTime(2025, 5, 1, 0);
    var t := DateTime(2025, 5, 2, 0);
    var s0 := State(Some(NEW_PROFILE.(expiresAt := Some(expiry))), Some(Provider("", original)), None);
    var a, b := Request(t, t, ""), Renew("simple", 1, t, "");
    ReachedStart(s0, expiry);
    ReachedNext(original, s0, expiry, [], a);
    ReachedNext(original, Step(s0, a), t, [a], b);
    RenewalRestoresIff(s0, t, t, "simple", 1, "", "");
    s, clock, actions := Step(Step(s0, a), b), t, [a] + [b];
    assert [] + [a] == [a];
  }

  /** The install origins survive every run unchanged exactly when they are tidy. */
  lemma ConservedIffTidy(original: string)
    ensures (forall s, clock, actions :: Reached(original, s, clock, actions) ==> OriginsInvariant(original, s))
      <==> Tidy(original)
  {
    if Tidy(original) {
      forall s, clock, actions | Reached(original, s, clock, actions)
        ensures OriginsInvariant(original, s)
      {
        OriginsConserved(original, s, clock, actions);
      }
    } else {
      var s, clock, actions := ExpireAndRenew(original);
      assert Reached(original, s, clock, actions) && !OriginsInvariant(original, s);
    }
  }

  // ---------------------------------------------------------------- the dead installation

  /** Request number i found the active deployment `before` expired, and its fresh key is still in place. */
  ghost predicate SuspendedBy(original: string, actions: seq<Action>, i: nat, before: State, s: State) {
    i < |actions| && actions[i].Request? && (exists c :: Reached(original, before, c, actions[..i]))
    && !Suspended(before)
    && (s.provider.Some? <==> before.provider.Some?)
    && (s.provider.Some? ==> s.provider.value.publicKey == actions[i].freshKey)
  }

  lemma StepsAndTheKey(s: State, a: Action)
    requires WellTimed(s) && (a.Renew? ==> Valid(a.at)) && Suspended(Step(s, a))
    ensures Suspended(s) ==> Step(s, a).provider == s.provider
    ensures !Suspended(s) ==>
      a.Request? && (Step(s, a).provider.Some? <==> s.provider.Some?)
      && (s.provider.Some? ==> Step(s, a).provider.value.publicKey == a.freshKey)
  {
  }

  /** While suspended, the public key is the one issued when the last active state ended. */
  lemma {:induction false} SuspensionRotatedKey(original: string, s: State, clock: DateTime, actions: seq<Action>)
    requires Reached(original, s, clock, actions) && Suspended(s)
    ensures exists i, before :: SuspendedBy(original, actions, i, before, s)
    decreases |actions|
  {
    hide Step;
    var n := |actions| - 1;
    var last := actions[n];
    var s0, c0 :| Reached(original, s0, c0, actions[..n]) && Timely(last, c0)
      && WellTimed(s0) && s == Step(s0, last) && clock == Ends(last, c0);
    StepsAndTheKey(s0, last);
    if Suspended(s0) {
      SuspensionRotatedKey(original, s0, c0, actions[..n]);
      var i: nat, before :| SuspendedBy(original, actions[..n], i, before, s0);
      assert actions[..n][..i] == actions[..i];
      assert s.provider == s0.provider;
      assert SuspendedBy(original, actions, i, before, s);
    } else {
      assert SuspendedBy(original, actions, n, s0, s);
    }
  }

  /** While the subscription is over, every request leaves the installation dead: the answer is
      "expired", no origin is live, and the public key is the one issued when the last active state ended. */
  lemma ExpiredMeansDead(original: string, s: State, clock: DateTime, actions: seq<Action>, now: DateTime, key: string)
    requires Stored(original)
    requires Reached(original, s, clock, actions)
    requires Timely(Request(now, now, key), clock) && IsExpired(s, now)
    ensures var a := Request(now, now, key);
      var r := Step(s, a);
      Answer(Enforce(s, now, key), now) && Suspended(r) && LiveOrigins(r) == ""
      && exists i, before :: SuspendedBy(original, actions + [a], i, before, r)
  {
    var a := Request(now, now, key);
    AnswerIsExact(original, s, clock, actions, now, now, key);
    ReachedKeepsFlag(original, s, clock, actions);
    ReachedNext(original, s, clock, actions, a);
    OriginsFollow(original, Step(s, a), now, actions + [a]);
    SuspensionRotatedKey(original, Step(s, a), now, actions + [a]);
  }
}
