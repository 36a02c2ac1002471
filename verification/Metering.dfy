/** Metering of user messages: `compute_units` and `monthly_usage` (chat/plans.py) over the rows
    that `_persist_user_message` (chat/views.py) writes. */
module Metering {
  import opened Prelude
  import opened Calendar

  datatype Role = User | Assistant

  datatype Message = Message(role: Role, createdAt: DateTime, units: nat)

  // ---------------------------------------------------------------- units of one message

  datatype SizeClass = VeryLow | Low | Medium | High | VeryHigh | Unknown

  function CharsPerUnit(size: SizeClass): (n: nat)
    ensures n >= 150
  {
    match size
    case VeryLow => 150
    case Low => 300
    case Medium => 600
    case High => 1200
    case VeryHigh => 2400
    case Unknown => 600
  }

  /** A very low unit is 150 characters, each class holds twice the one below it, and an unknown class is
      read as medium. */
  lemma ClassesDouble()
    ensures CharsPerUnit(VeryLow) == 150
    ensures CharsPerUnit(Low) == 2 * CharsPerUnit(VeryLow) && CharsPerUnit(Medium) == 2 * CharsPerUnit(Low)
    ensures CharsPerUnit(High) == 2 * CharsPerUnit(Medium) && CharsPerUnit(VeryHigh) == 2 * CharsPerUnit(High)
    ensures CharsPerUnit(Unknown) == CharsPerUnit(Medium)
  {
  }

  function CeilDiv(a: nat, b: nat): nat
    requires b > 0
  {
    (a + b - 1) / b
  }

  /** `compute_units`: the least positive number of units whose characters cover the text. */
  function ComputeUnits(length: nat, size: SizeClass): (u: nat)
    ensures u >= 1 && length <= u * CharsPerUnit(size)
    ensures u > 1 ==> (u - 1) * CharsPerUnit(size) < length
    ensures length <= 150 ==> u == 1
  {
    var n := CharsPerUnit(size);
    var q := CeilDiv(length, n);
    assert q * n >= length && (q > 0 ==> (q - 1) * n < length);
    Max(1, q)
  }

  /** Splitting a text into two messages never costs less than sending it whole, and at most one unit more. */
  lemma SplittingCosts(a: nat, b: nat, size: SizeClass)
    ensures ComputeUnits(a + b, size) <= ComputeUnits(a, size) + ComputeUnits(b, size)
    ensures a > 0 && b > 0 ==> ComputeUnits(a, size) + ComputeUnits(b, size) <= ComputeUnits(a + b, size) + 1
  {
    var n := CharsPerUnit(size);
    var u, v, w := ComputeUnits(a, size), ComputeUnits(b, size), ComputeUnits(a + b, size);
    assert (u + v) * n == u * n + v * n;
    if w > 1 {
      Cancel(w - 1, u + v, n);
    }
    if a > 0 && b > 0 {
      assert (u + v - 2) * n == (u - 1) * n + (v - 1) * n;
      Cancel(u + v - 2, w, n);
    }
  }

  lemma Cancel(x: int, y: int, n: int)
    requires n > 0 && x * n < y * n
    ensures x < y
  {
  }

  // ---------------------------------------------------------------- usage of one window

  predicate Within(t: DateTime, from: DateTime, to: DateTime) {
    AtMost(from, t) && Before(t, to)
  }

  /** What one message adds to the usage of [from, to). */
  function Counted(m: Message, from: DateTime, to: DateTime): nat {
    if m.role == User && Within(m.createdAt, from, to) then m.units else 0
  }

  /** `monthly_usage`: units of the user messages created in [from, to). */
  function Usage(messages: seq<Message>, from: DateTime, to: DateTime): nat {
    if messages == [] then 0
    else Counted(messages[0], from, to) + Usage(messages[1..], from, to)
  }

  /** Usage is additive in the rows. */
  lemma {:induction false} UsageAppend(a: seq<Message>, b: seq<Message>, from: DateTime, to: DateTime)
    ensures Usage(a + b, from, to) == Usage(a, from, to) + Usage(b, from, to)
  {
    if a == [] {
      assert a + b == b;
    } else {
      assert (a + b)[1..] == a[1..] + b;
      UsageAppend(a[1..], b, from, to);
    }
  }

  /** A row the bill is about: a user's message with from <= created < to. */
  function BilledIn(from: DateTime, to: DateTime): Message -> bool {
    (m: Message) => m.role == User && (m.createdAt == from || Before(from, m.createdAt)) && Before(m.createdAt, to)
  }

  function TotalUnits(messages: seq<Message>): nat {
    if messages == [] then 0 else messages[0].units + TotalUnits(messages[1..])
  }

  /** Usage is the sum of the units of exactly the user messages in the window. */
  lemma {:induction false} UsageIsTotal(messages: seq<Message>, from: DateTime, to: DateTime)
    requires Valid(from) && ValidRows(messages)
    ensures Usage(messages, from, to) == TotalUnits(Filter(messages, BilledIn(from, to)))
  {
    if messages != [] {
      UsageIsTotal(messages[1..], from, to);
      OrderIsTotal(from, messages[0].createdAt);
    }
  }

  /** Answers are never billed. */
  lemma AnswersAreFree(messages: seq<Message>, m: Message, from: DateTime, to: DateTime)
    requires m.role == Assistant
    ensures Usage(messages + [m], from, to) == Usage(messages, from, to)
  {
    UsageAppend(messages, [m], from, to);
    assert [m][1..] == [];
  }

  predicate ValidRows(messages: seq<Message>) {
    forall i :: 0 <= i < |messages| ==> Valid(messages[i].createdAt)
  }

  /** Adjacent windows add up. */
  lemma {:induction false} UsageSplits(messages: seq<Message>, a: DateTime, b: DateTime, c: DateTime)
    requires ValidRows(messages) && AtMost(a, b) && AtMost(b, c)
    ensures Usage(messages, a, c) == Usage(messages, a, b) + Usage(messages, b, c)
  {
    if messages != [] {
      UsageSplits(messages[1..], a, b, c);
    }
  }

  lemma {:induction false} UsageEmpty(messages: seq<Message>, a: DateTime)
    ensures Usage(messages, a, a) == 0
  {
    if messages != [] {
      UsageEmpty(messages[1..], a);
    }
  }

  // ---------------------------------------------------------------- all cycles of one anchor

  function CycleUsage(messages: seq<Message>, anchor: DateTime, k: int): nat
    requires Valid(anchor)
  {
    Usage(messages, Cycle(anchor, k).start, Cycle(anchor, k).end)
  }

  /** Usage that falls between cycle k and the next one, which no window reports. */
  function GapUsage(messages: seq<Message>, anchor: DateTime, k: int): nat
    requires Valid(anchor)
  {
    Usage(messages, Cycle(anchor, k).end, AddMonths(anchor, k + 1))
  }

  function SumTo(f: int -> nat, n: nat): nat {
    if n == 0 then 0 else SumTo(f, n - 1) + f(n - 1)
  }

  lemma {:induction false} SumIsZero(f: int -> nat, n: nat)
    ensures SumTo(f, n) == 0 <==> forall k :: 0 <= k < n ==> f(k) == 0
  {
    if n > 0 {
      SumIsZero(f, n - 1);
    }
  }

  function CycleOf(messages: seq<Message>, anchor: DateTime): int -> nat
    requires Valid(anchor)
  {
    k => CycleUsage(messages, anchor, k)
  }

  function GapOf(messages: seq<Message>, anchor: DateTime): int -> nat
    requires Valid(anchor)
  {
    k => GapUsage(messages, anchor, k)
  }

  function CyclesTotal(messages: seq<Message>, anchor: DateTime, cycles: nat): nat
    requires Valid(anchor)
  {
    SumTo(CycleOf(messages, anchor), cycles)
  }

  function GapsTotal(messages: seq<Message>, anchor: DateTime, cycles: nat): nat
    requires Valid(anchor)
  {
    SumTo(GapOf(messages, anchor), cycles)
  }

  /** A cycle lies between its boundary and the next, after the anchor. */
  lemma CycleOrder(anchor: DateTime, k: nat)
    requires Valid(anchor)
    ensures var c := Cycle(anchor, k);
      c.start == AddMonths(anchor, k)
      && AtMost(anchor, c.start) && AtMost(c.start, c.end) && AtMost(c.end, AddMonths(anchor, k + 1))
  {
    AddMonthsMonotone(anchor, 0, k);
    AddMonthsMonotone(AddMonths(anchor, k), 0, 1);
    WindowEnd(anchor, k);
  }

  lemma UsageOfThree(messages: seq<Message>, a: DateTime, b: DateTime, c: DateTime, d: DateTime)
    requires ValidRows(messages) && AtMost(a, b) && AtMost(b, c) && AtMost(c, d) && AtMost(b, d)
    ensures Usage(messages, a, d) == Usage(messages, a, b) + Usage(messages, b, c) + Usage(messages, c, d)
  {
    UsageSplits(messages, b, c, d);
    UsageSplits(messages, a, b, d);
  }

  /** One more month adds one more cycle and one more gap. */
  lemma UsageStep(messages: seq<Message>, anchor: DateTime, k: nat)
    requires Valid(anchor) && ValidRows(messages)
    ensures Usage(messages, anchor, AddMonths(anchor, k + 1))
         == Usage(messages, anchor, AddMonths(anchor, k)) + CycleUsage(messages, anchor, k) + GapUsage(messages, anchor, k)
  {
    CycleOrder(anchor, k);
    AddMonthsMonotone(anchor, k, k + 1);
    UsageOfThree(messages, anchor, AddMonths(anchor, k), Cycle(anchor, k).end, AddMonths(anchor, k + 1));
  }

  lemma TotalsStep(messages: seq<Message>, anchor: DateTime, k: nat)
    requires Valid(anchor)
    ensures CyclesTotal(messages, anchor, k + 1) == CyclesTotal(messages, anchor, k) + CycleUsage(messages, anchor, k)
    ensures GapsTotal(messages, anchor, k + 1) == GapsTotal(messages, anchor, k) + GapUsage(messages, anchor, k)
  {
  }

  /** The books balance for every anchor: what the cycles report plus what fell into the gaps
      is everything sent since the anchor. */
  lemma {:induction false} UsageAccounts(messages: seq<Message>, anchor: DateTime, cycles: nat)
    requires Valid(anchor) && ValidRows(messages)
    ensures CyclesTotal(messages, anchor, cycles) + GapsTotal(messages, anchor, cycles)
         == Usage(messages, anchor, AddMonths(anchor, cycles))
  {
    if cycles == 0 {
      AddMonthsMonotone(anchor, 0, 0);
      UsageEmpty(messages, anchor);
    } else {
      UsageAccounts(messages, anchor, cycles - 1);
      UsageStep(messages, anchor, cycles - 1);
      TotalsStep(messages, anchor, cycles - 1);
    }
  }

  /** For an anchor day up to 28 nothing falls between the cycles: usage is conserved exactly. */
  lemma UsageConserved(messages: seq<Message>, anchor: DateTime, cycles: nat)
    requires Valid(anchor) && ValidRows(messages) && anchor.day <= 28
    ensures CyclesTotal(messages, anchor, cycles) == Usage(messages, anchor, AddMonths(anchor, cycles))
  {
    UsageAccounts(messages, anchor, cycles);
    forall k | 0 <= k < cycles
      ensures GapUsage(messages, anchor, k) == 0
    {
      NoGap(messages, anchor, k);
    }
    GapsUnused(messages, anchor, cycles);
  }

  lemma NoGap(messages: seq<Message>, anchor: DateTime, k: int)
    requires Valid(anchor) && anchor.day <= 28
    ensures GapUsage(messages, anchor, k) == 0
  {
    WindowEnd(anchor, k);
    UsageEmpty(messages, AddMonths(anchor, k + 1));
  }

  lemma {:induction false} UsageZero(messages: seq<Message>, from: DateTime, to: DateTime)
    ensures Usage(messages, from, to) == 0 <==> forall m :: m in messages ==> Counted(m, from, to) == 0
  {
    if messages != [] {
      UsageZero(messages[1..], from, to);
    }
  }

  /** A time lies between cycle k and the next boundary only if it is in the gap of its month. */
  lemma BetweenCyclesIsGap(anchor: DateTime, k: nat, t: DateTime)
    requires Valid(anchor) && Valid(t) && Within(t, Cycle(anchor, k).end, AddMonths(anchor, k + 1))
    ensures AtMost(anchor, t) && InGap(anchor, t)
  {
    CycleOrder(anchor, k);
    MonthExists(anchor, t);
    assert InMonth(anchor, k, t);
    WindowIsCycle(anchor, t);
    WindowContainsNow(anchor, t);
  }

  lemma GapIsBetweenCycles(anchor: DateTime, cycles: nat, t: DateTime) returns (k: nat)
    requires Valid(anchor) && Valid(t) && Within(t, anchor, AddMonths(anchor, cycles)) && InGap(anchor, t)
    ensures k < cycles && Within(t, Cycle(anchor, k).end, AddMonths(anchor, k + 1))
  {
    MonthExists(anchor, t);
    WindowIsCycle(anchor, t);
    WindowContainsNow(anchor, t);
    k := MonthOf(anchor, t);
    if k >= cycles {
      AddMonthsMonotone(anchor, cycles, k);
    }
  }

  /** No billed message between the anchor and the end of the last cycle was sent in a gap. */
  ghost predicate NoneInGap(messages: seq<Message>, anchor: DateTime, cycles: nat)
    requires Valid(anchor) && ValidRows(messages)
  {
    forall i :: 0 <= i < |messages| ==>
      !(Counted(messages[i], anchor, AddMonths(anchor, cycles)) > 0 && InGap(anchor, messages[i].createdAt))
  }

  lemma UsedGap(messages: seq<Message>, i: nat, anchor: DateTime, cycles: nat) returns (k: nat)
    requires Valid(anchor) && ValidRows(messages) && i < |messages|
    requires Counted(messages[i], anchor, AddMonths(anchor, cycles)) > 0 && InGap(anchor, messages[i].createdAt)
    ensures k < cycles && GapUsage(messages, anchor, k) > 0
  {
    k := GapIsBetweenCycles(anchor, cycles, messages[i].createdAt);
    UsageZero(messages, Cycle(anchor, k).end, AddMonths(anchor, k + 1));
    assert messages[i] in messages;
  }

  lemma NoneInGapIff(messages: seq<Message>, anchor: DateTime, cycles: nat)
    requires Valid(anchor) && ValidRows(messages)
    ensures (forall k :: 0 <= k < cycles ==> GapUsage(messages, anchor, k) == 0) <==> NoneInGap(messages, anchor, cycles)
  {
    if forall k :: 0 <= k < cycles ==> GapUsage(messages, anchor, k) == 0 {
      forall i | 0 <= i < |messages| && Counted(messages[i], anchor, AddMonths(anchor, cycles)) > 0
        ensures !InGap(anchor, messages[i].createdAt)
      {
        if InGap(anchor, messages[i].createdAt) {
          var k := UsedGap(messages, i, anchor, cycles);
        }
      }
    }
    if NoneInGap(messages, anchor, cycles) {
      forall k | 0 <= k < cycles
        ensures GapUsage(messages, anchor, k) == 0
      {
        UsageZero(messages, Cycle(anchor, k).end, AddMonths(anchor, k + 1));
        forall i | 0 <= i < |messages|
          ensures Counted(messages[i], Cycle(anchor, k).end, AddMonths(anchor, k + 1)) == 0
        {
          NoneBetween(messages[i], anchor, k, cycles);
        }
      }
    }
  }

  lemma NoneBetween(m: Message, anchor: DateTime, k: nat, cycles: nat)
    requires Valid(anchor) && Valid(m.createdAt) && k < cycles
    requires !(Counted(m, anchor, AddMonths(anchor, cycles)) > 0 && InGap(anchor, m.createdAt))
    ensures Counted(m, Cycle(anchor, k).end, AddMonths(anchor, k + 1)) == 0
  {
    if Within(m.createdAt, Cycle(anchor, k).end, AddMonths(anchor, k + 1)) {
      BetweenCyclesIsGap(anchor, k, m.createdAt);
      AddMonthsMonotone(anchor, k + 1, cycles);
    }
  }

  /** The cycles conserve usage exactly when no billed message was sent in a gap. */
  lemma ConservedIffGapsUnused(messages: seq<Message>, anchor: DateTime, cycles: nat)
    requires Valid(anchor) && ValidRows(messages)
    ensures CyclesTotal(messages, anchor, cycles) == Usage(messages, anchor, AddMonths(anchor, cycles))
      <==> NoneInGap(messages, anchor, cycles)
  {
    UsageAccounts(messages, anchor, cycles);
    GapsUnused(messages, anchor, cycles);
    NoneInGapIff(messages, anchor, cycles);
  }

  lemma GapsUnused(messages: seq<Message>, anchor: DateTime, cycles: nat)
    requires Valid(anchor)
    ensures GapsTotal(messages, anchor, cycles) == 0 <==> forall k :: 0 <= k < cycles ==> GapUsage(messages, anchor, k) == 0
  {
    var f := GapOf(messages, anchor);
    SumIsZero(f, cycles);
    assert forall k :: f(k) == GapUsage(messages, anchor, k);
  }

  /** No message is ever counted in two different cycles. */
  lemma NeverCountedTwice(m: Message, anchor: DateTime, i: int, j: int)
    requires Valid(anchor) && Valid(m.createdAt) && i < j
    ensures Counted(m, Cycle(anchor, i).start, Cycle(anchor, i).end) == 0
         || Counted(m, Cycle(anchor, j).start, Cycle(anchor, j).end) == 0
  {
    WindowEnd(anchor, i);
    if i + 1 < j {
      AddMonthsMonotone(anchor, i + 1, j);
    }
  }

  /** A user message sent since the anchor is reported by the window current at its creation
      exactly when it was not sent in a gap. */
  lemma CountedWhenSent(m: Message, anchor: DateTime)
    requires Valid(anchor) && Valid(m.createdAt) && AtMost(anchor, m.createdAt)
    requires m.role == User && m.units > 0
    ensures var w := GetMonthlyWindow(anchor, m.createdAt);
      Counted(m, w.start, w.end) == m.units <==> !InGap(anchor, m.createdAt)
  {
    WindowContainsNow(anchor, m.createdAt);
  }
}
