/**
 * The wording of a suggestion's reason: the clauses `_generate_reason` may pick, their text, and
 * which clauses a task must get.
 */
module Reasons {

  /** One entry of the `reasons` list, before it is turned into text. */
  datatype Clause =
    | Overdue(days: nat)
    | DueToday
    | DueIn(days: nat)
    | HighImportance
    | QuickWin
    | BlocksOthers
    | FastToComplete
    | MaximumImpact
    | UrgentDeadline
    | Balanced

  // ---------------------------------------------------------------- numbers as text

  predicate IsDigit(c: char) { '0' <= c <= '9' }

  function DigitChar(d: nat): (c: char)
    requires d < 10
    ensures IsDigit(c) && c as int - '0' as int == d
  {
    ('0' as int + d) as char
  }

  /** The decimal text of `n`, as an f-string renders a non-negative int. */
  function NatToString(n: nat): (s: string)
    ensures |s| >= 1
    ensures forall i :: 0 <= i < |s| ==> IsDigit(s[i])
    ensures n > 0 ==> s[0] != '0'
    decreases n
  {
    if n < 10 then [DigitChar(n)] else NatToString(n / 10) + [DigitChar(n % 10)]
  }

  /** The number a string of decimal digits denotes. */
  function DigitsValue(s: string): nat
    requires forall i :: 0 <= i < |s| ==> IsDigit(s[i])
  {
    if s == [] then 0
    else
      assert IsDigit(s[|s| - 1]);
      DigitsValue(s[..|s| - 1]) * 10 + (s[|s| - 1] as int - '0' as int)
  }

  /** Reading the rendered number back gives the number: nothing is lost in the text. */
  lemma {:induction false} NatToStringRoundTrip(n: nat)
    ensures DigitsValue(NatToString(n)) == n
    decreases n
  {
    if n >= 10 {
      NatToStringRoundTrip(n / 10);
      var s := NatToString(n);
      assert s[..|s| - 1] == NatToString(n / 10);
    }
  }

  // ---------------------------------------------------------------- clause text

  function ClauseText(c: Clause): string {
    match c
    case Overdue(days) => "overdue by " + NatToString(days) + " day(s)"
    case DueToday => "due today"
    case DueIn(days) => "due in " + NatToString(days) + " day(s)"
    case HighImportance => "high importance"
    case QuickWin => "quick win"
    case BlocksOthers => "blocks other tasks"
    case FastToComplete => "fast to complete"
    case MaximumImpact => "maximum impact"
    case UrgentDeadline => "urgent deadline"
    case Balanced => "balanced priority across all factors"
  }

  /** `sep.join(parts)` */
  function Join(parts: seq<string>, sep: string): string {
    if |parts| == 0 then ""
    else if |parts| == 1 then parts[0]
    else parts[0] + sep + Join(parts[1..], sep)
  }

  function Texts(clauses: seq<Clause>): (r: seq<string>)
    ensures |r| == |clauses|
    ensures forall i :: 0 <= i < |clauses| ==> r[i] == ClauseText(clauses[i])
  {
    if clauses == [] then [] else [ClauseText(clauses[0])] + Texts(clauses[1..])
  }

  const ReasonPrefix: string := "Recommended because: "

  /** `"Recommended because: " + ", ".join(reasons)` */
  function RenderReason(clauses: seq<Clause>): (r: string)
    ensures |r| >= |ReasonPrefix| && r[..|ReasonPrefix|] == ReasonPrefix
  {
    ReasonPrefix + Join(Texts(clauses), ", ")
  }

  /** `t` occurs in `s` starting at index `k`. */
  predicate OccursAt(s: string, t: string, k: int) {
    0 <= k <= |s| - |t| && s[k..k + |t|] == t
  }

  /** `t` occurs in `s` as a contiguous piece (Python's `t in s`). */
  predicate Contains(s: string, t: string) {
    exists k :: 0 <= k <= |s| && OccursAt(s, t, k)
  }

  lemma ContainsShift(a: string, s: string, t: string)
    requires Contains(s, t)
    ensures Contains(a + s, t)
  {
    var k :| 0 <= k <= |s| && OccursAt(s, t, k);
    assert 0 <= k <= |s| - |t| && s[k..k + |t|] == t;
    assert (a + s)[|a| + k..|a| + k + |t|] == t;
    assert OccursAt(a + s, t, |a| + k);
  }

  /** Every part of a join occurs in the joined text. */
  lemma {:induction false} JoinContainsParts(parts: seq<string>, sep: string, i: int)
    requires 0 <= i < |parts|
    ensures Contains(Join(parts, sep), parts[i])
  {
    if |parts| == 1 || i == 0 {
      assert Join(parts, sep)[0..|parts[0]|] == parts[0];
      assert OccursAt(Join(parts, sep), parts[i], 0);
    } else {
      JoinContainsParts(parts[1..], sep, i - 1);
      ContainsShift(parts[0] + sep, Join(parts[1..], sep), parts[i]);
    }
  }

  /** The reason text mentions every clause it was built from. */
  lemma ReasonMentionsClauses(clauses: seq<Clause>, i: int)
    requires 0 <= i < |clauses|
    ensures Contains(RenderReason(clauses), ClauseText(clauses[i]))
  {
    JoinContainsParts(Texts(clauses), ", ", i);
    ContainsShift(ReasonPrefix, Join(Texts(clauses), ", "), ClauseText(clauses[i]));
  }

  // ---------------------------------------------------------------- which clauses a task gets

  /**
   * The order `_generate_reason` appends in: the due-date clause, high importance, quick win,
   * blocking, the strategy clause, and the fallback.
   */
  function Slot(c: Clause): nat {
    match c
    case Overdue(_) => 0
    case DueToday => 0
    case DueIn(_) => 0
    case HighImportance => 1
    case QuickWin => 2
    case BlocksOthers => 3
    case FastToComplete => 4
    case MaximumImpact => 4
    case UrgentDeadline => 4
    case Balanced => 5
  }

  /** The strategy clause: the first of the three `elif` branches whose condition holds. */
  predicate WantsFast(strategy: string, hours: real) {
    strategy == "fastest_wins" && hours <= 1.0
  }

  predicate WantsImpact(strategy: string, importance: int) {
    strategy == "high_impact" && importance >= 8
  }

  predicate WantsDeadline(strategy: string, daysUntil: int) {
    strategy == "deadline_driven" && daysUntil <= 2
  }

  /** None of the conditions of a specific clause holds. */
  predicate NothingStandsOut(strategy: string, daysUntil: int, importance: int, hours: real, dependencies: real) {
    && daysUntil > 3 && importance < 8 && hours > 2.0 && dependencies <= 70.0
    && !WantsFast(strategy, hours) && !WantsImpact(strategy, importance) && !WantsDeadline(strategy, daysUntil)
  }

  /** The condition under which `_generate_reason` appends clause `c`, with the number it shows. */
  predicate Applies(strategy: string, daysUntil: int, importance: int, hours: real, dependencies: real, c: Clause) {
    match c
    case Overdue(n) => daysUntil < 0 && n == -daysUntil
    case DueToday => daysUntil == 0
    case DueIn(n) => 0 < daysUntil <= 3 && n == daysUntil
    case HighImportance => importance >= 8
    case QuickWin => hours <= 2.0
    case BlocksOthers => dependencies > 70.0
    case FastToComplete => WantsFast(strategy, hours)
    case MaximumImpact => !WantsFast(strategy, hours) && WantsImpact(strategy, importance)
    case UrgentDeadline =>
      !WantsFast(strategy, hours) && !WantsImpact(strategy, importance) && WantsDeadline(strategy, daysUntil)
    case Balanced => NothingStandsOut(strategy, daysUntil, importance, hours, dependencies)
  }

  /** Clauses appear in append order, each at most once per slot. */
  predicate InSlotOrder(clauses: seq<Clause>) {
    forall i, j :: 0 <= i < j < |clauses| ==> Slot(clauses[i]) < Slot(clauses[j])
  }

  /**
   * What a task's clause list must be: exactly the clauses whose condition holds, in append order.
   * `dependencies` is the breakdown's (rounded) dependency score.
   */
  ghost predicate Explains(strategy: string, daysUntil: int, importance: int, hours: real, dependencies: real,
                           clauses: seq<Clause>)
  {
    && InSlotOrder(clauses)
    && (forall c :: c in clauses <==> Applies(strategy, daysUntil, importance, hours, dependencies, c))
  }

  /**
   * Part way through: the clauses of the slots below `k` are exactly the ones whose condition
   * holds, in order, and nothing of slot `k` or later is there yet.
   */
  ghost predicate ExplainsBelow(strategy: string, daysUntil: int, importance: int, hours: real, dependencies: real,
                                clauses: seq<Clause>, k: nat)
  {
    && InSlotOrder(clauses)
    && (forall c :: c in clauses ==> Slot(c) < k)
    && (forall c :: Slot(c) < k ==> (c in clauses <==> Applies(strategy, daysUntil, importance, hours, dependencies, c)))
  }

  /** Appending the clause of slot `k` when its condition holds moves the frontier to `k + 1`. */
  lemma AppendSlot(strategy: string, daysUntil: int, importance: int, hours: real, dependencies: real,
                   clauses: seq<Clause>, next: seq<Clause>, k: nat)
    requires ExplainsBelow(strategy, daysUntil, importance, hours, dependencies, clauses, k)
    requires forall c :: c in next ==> Slot(c) == k
    requires |next| <= 1
    requires forall c :: Slot(c) == k ==> (c in next <==> Applies(strategy, daysUntil, importance, hours, dependencies, c))
    ensures ExplainsBelow(strategy, daysUntil, importance, hours, dependencies, clauses + next, k + 1)
  {
    var r := clauses + next;
    forall i, j | 0 <= i < j < |r| ensures Slot(r[i]) < Slot(r[j]) {
      if j < |clauses| {
        assert r[i] == clauses[i] && r[j] == clauses[j];
      } else {
        assert r[i] == clauses[i] && clauses[i] in clauses && r[j] in next;
      }
    }
  }

  /** Once the five specific slots are settled, the list is empty exactly when nothing stands out. */
  lemma NothingAppended(strategy: string, daysUntil: int, importance: int, hours: real, dependencies: real,
                        clauses: seq<Clause>)
    requires ExplainsBelow(strategy, daysUntil, importance, hours, dependencies, clauses, 5)
    ensures clauses == [] <==> NothingStandsOut(strategy, daysUntil, importance, hours, dependencies)
  {
    if clauses == [] {
      var overdueBy := if daysUntil < 0 then -daysUntil else 0;
      assert !Applies(strategy, daysUntil, importance, hours, dependencies, Overdue(overdueBy));
      assert !Applies(strategy, daysUntil, importance, hours, dependencies, DueToday);
      assert !Applies(strategy, daysUntil, importance, hours, dependencies, DueIn(daysUntil));
      assert !Applies(strategy, daysUntil, importance, hours, dependencies, HighImportance);
      assert !Applies(strategy, daysUntil, importance, hours, dependencies, QuickWin);
      assert !Applies(strategy, daysUntil, importance, hours, dependencies, BlocksOthers);
      assert !Applies(strategy, daysUntil, importance, hours, dependencies, FastToComplete);
      assert !Applies(strategy, daysUntil, importance, hours, dependencies, MaximumImpact);
      assert !Applies(strategy, daysUntil, importance, hours, dependencies, UrgentDeadline);
    } else {
      assert clauses[0] in clauses;
    }
  }

  /** With the fallback settled too, the list is the whole explanation. */
  lemma ExplainsComplete(strategy: string, daysUntil: int, importance: int, hours: real, dependencies: real,
                         clauses: seq<Clause>)
    requires ExplainsBelow(strategy, daysUntil, importance, hours, dependencies, clauses, 6)
    ensures Explains(strategy, daysUntil, importance, hours, dependencies, clauses)
  {
  }

  /** The due-date block: overdue, due today, or due within three days. */
  function DueClauses(daysUntil: int): seq<Clause> {
    if daysUntil < 0 then [Overdue(-daysUntil)]
    else if daysUntil == 0 then [DueToday]
    else if daysUntil <= 3 then [DueIn(daysUntil)]
    else []
  }

  /** The strategy block: at most one of the three `elif` branches. */
  function StrategyClauses(strategy: string, daysUntil: int, importance: int, hours: real): seq<Clause> {
    if WantsFast(strategy, hours) then [FastToComplete]
    else if WantsImpact(strategy, importance) then [MaximumImpact]
    else if WantsDeadline(strategy, daysUntil) then [UrgentDeadline]
    else []
  }

  /**
   * Block `k` of `_generate_reason` (0 due date, 1 importance, 2 hours, 3 blocking, 4 strategy):
   * what it appends to the clauses of the blocks before it.
   */
  function Block(strategy: string, daysUntil: int, importance: int, hours: real, dependencies: real, k: nat): seq<Clause> {
    if k == 0 then DueClauses(daysUntil)
    else if k == 1 then (if importance >= 8 then [HighImportance] else [])
    else if k == 2 then (if hours <= 2.0 then [QuickWin] else [])
    else if k == 3 then (if dependencies > 70.0 then [BlocksOthers] else [])
    else if k == 4 then StrategyClauses(strategy, daysUntil, importance, hours)
    else []
  }

  /** The clauses appended by the first `k` blocks. */
  function Blocks(strategy: string, daysUntil: int, importance: int, hours: real, dependencies: real, k: nat): seq<Clause> {
    if k == 0 then []
    else Blocks(strategy, daysUntil, importance, hours, dependencies, k - 1)
         + Block(strategy, daysUntil, importance, hours, dependencies, k - 1)
  }

  /** The list `_generate_reason` builds: the five blocks, or the fallback when they add nothing. */
  function ReasonClauses(strategy: string, daysUntil: int, importance: int, hours: real, dependencies: real): seq<Clause> {
    var specific := Blocks(strategy, daysUntil, importance, hours, dependencies, 5);
    if specific == [] then [Balanced] else specific
  }

  /** Each block appends exactly the clauses of its own slot whose condition holds. */
  lemma BlockDecides(strategy: string, daysUntil: int, importance: int, hours: real, dependencies: real, k: nat)
    requires k < 5
    ensures var b := Block(strategy, daysUntil, importance, hours, dependencies, k);
      && |b| <= 1
      && (forall c :: c in b ==> Slot(c) == k)
      && (forall c :: Slot(c) == k ==> (c in b <==> Applies(strategy, daysUntil, importance, hours, dependencies, c)))
  {
  }

  /** After `k` blocks the clauses of the first `k` slots are settled. */
  lemma {:induction false} BlocksExplained(strategy: string, daysUntil: int, importance: int, hours: real,
                                           dependencies: real, k: nat)
    requires k <= 5
    ensures ExplainsBelow(strategy, daysUntil, importance, hours, dependencies,
                          Blocks(strategy, daysUntil, importance, hours, dependencies, k), k)
  {
    if k > 0 {
      BlocksExplained(strategy, daysUntil, importance, hours, dependencies, k - 1);
      var before := Blocks(strategy, daysUntil, importance, hours, dependencies, k - 1);
      var b := Block(strategy, daysUntil, importance, hours, dependencies, k - 1);
      BlockDecides(strategy, daysUntil, importance, hours, dependencies, k - 1);
      AppendSlot(strategy, daysUntil, importance, hours, dependencies, before, b, k - 1);
    }
  }

  /** The block-by-block list is exactly the explanation the conditions call for. */
  lemma ReasonClausesExplains(strategy: string, daysUntil: int, importance: int, hours: real, dependencies: real)
    ensures Explains(strategy, daysUntil, importance, hours, dependencies,
                     ReasonClauses(strategy, daysUntil, importance, hours, dependencies))
  {
    var specific := Blocks(strategy, daysUntil, importance, hours, dependencies, 5);
    BlocksExplained(strategy, daysUntil, importance, hours, dependencies, 5);
    NothingAppended(strategy, daysUntil, importance, hours, dependencies, specific);
    var last := if specific == [] then [Balanced] else [];
    AppendSlot(strategy, daysUntil, importance, hours, dependencies, specific, last, 5);
    assert specific + last == ReasonClauses(strategy, daysUntil, importance, hours, dependencies);
    ExplainsComplete(strategy, daysUntil, importance, hours, dependencies, specific + last);
  }

  lemma FirstTwoSlots(clauses: seq<Clause>)
    requires InSlotOrder(clauses)
    ensures |clauses| > 1 ==> Slot(clauses[0]) < Slot(clauses[1])
  {
  }

  /**
   * Every explanation has at least one clause, and the fallback never comes with another one;
   * "quick win" is given exactly to tasks of at most two hours and "high importance" exactly to
   * importance 8 and above.
   */
  lemma ExplainsShape(strategy: string, daysUntil: int, importance: int, hours: real, dependencies: real,
                      clauses: seq<Clause>)
    requires Explains(strategy, daysUntil, importance, hours, dependencies, clauses)
    ensures |clauses| >= 1
    ensures Balanced in clauses <==> clauses == [Balanced]
    ensures QuickWin in clauses <==> hours <= 2.0
    ensures HighImportance in clauses <==> importance >= 8
  {
    assert Applies(strategy, daysUntil, importance, hours, dependencies, QuickWin) <==> hours <= 2.0;
    assert Applies(strategy, daysUntil, importance, hours, dependencies, HighImportance) <==> importance >= 8;
    if !NothingStandsOut(strategy, daysUntil, importance, hours, dependencies) {
      if daysUntil < 0 {
        assert Applies(strategy, daysUntil, importance, hours, dependencies, Overdue(-daysUntil));
      } else if 0 < daysUntil <= 3 {
        assert Applies(strategy, daysUntil, importance, hours, dependencies, DueIn(daysUntil));
      } else {
        assert Applies(strategy, daysUntil, importance, hours, dependencies, DueToday) ||
               Applies(strategy, daysUntil, importance, hours, dependencies, HighImportance) ||
               Applies(strategy, daysUntil, importance, hours, dependencies, QuickWin) ||
               Applies(strategy, daysUntil, importance, hours, dependencies, BlocksOthers) ||
               Applies(strategy, daysUntil, importance, hours, dependencies, FastToComplete) ||
               Applies(strategy, daysUntil, importance, hours, dependencies, MaximumImpact) ||
               Applies(strategy, daysUntil, importance, hours, dependencies, UrgentDeadline);
      }
    } else {
      assert Applies(strategy, daysUntil, importance, hours, dependencies, Balanced);
      forall i | 0 <= i < |clauses| ensures clauses[i] == Balanced {
        assert clauses[i] in clauses;
      }
      FirstTwoSlots(clauses);
      assert clauses == [Balanced];
    }
  }

  lemma HeadHasLowestSlot(a: seq<Clause>, k: nat)
    requires InSlotOrder(a) && k < |a|
    ensures k == 0 || Slot(a[0]) < Slot(a[k])
  {
  }

  lemma TailInSlotOrder(a: seq<Clause>)
    requires InSlotOrder(a) && a != []
    ensures InSlotOrder(a[1..])
  {
    forall p, q | 0 <= p < q < |a| - 1 ensures Slot(a[1..][p]) < Slot(a[1..][q]) {
      assert a[1..][p] == a[p + 1] && a[1..][q] == a[q + 1];
    }
  }

  /** A member of the tail of `a` is a member of `b` other than its head, so it is in `b`'s tail. */
  lemma TailMember(a: seq<Clause>, b: seq<Clause>, c: Clause)
    requires InSlotOrder(a) && a != [] && b != [] && a[0] == b[0]
    requires forall x :: x in a <==> x in b
    requires c in a[1..]
    ensures c in b[1..]
  {
    var k :| 0 <= k < |a| - 1 && a[1..][k] == c;
    assert a[k + 1] == c && Slot(a[0]) < Slot(c);
    assert c in a;
    var m :| 0 <= m < |b| && b[m] == c;
    assert m > 0 && b[1..][m - 1] == c;
  }

  /** Two lists in slot order with the same members are the same list. */
  lemma {:induction false} SameMembersInSlotOrder(a: seq<Clause>, b: seq<Clause>)
    requires InSlotOrder(a) && InSlotOrder(b)
    requires forall c :: c in a <==> c in b
    ensures a == b
  {
    if a != [] {
      assert a[0] in a;
    }
    if b != [] {
      assert b[0] in b;
    }
    if a != [] && b != [] {
      var j :| 0 <= j < |b| && b[j] == a[0];
      var i :| 0 <= i < |a| && a[i] == b[0];
      // each head has the lowest slot of its list, and each is a member of the other list
      HeadHasLowestSlot(a, i);
      HeadHasLowestSlot(b, j);
      assert a[0] == b[0];
      forall c ensures c in a[1..] <==> c in b[1..] {
        if c in a[1..] {
          TailMember(a, b, c);
        }
        if c in b[1..] {
          TailMember(b, a, c);
        }
      }
      TailInSlotOrder(a);
      TailInSlotOrder(b);
      SameMembersInSlotOrder(a[1..], b[1..]);
      assert a == [a[0]] + a[1..] && b == [b[0]] + b[1..];
    }
  }

  /** A task's clause list is determined: only one list explains it, the one `ReasonClauses` builds. */
  lemma ExplainsUnique(strategy: string, daysUntil: int, importance: int, hours: real, dependencies: real,
                       clauses: seq<Clause>)
    requires Explains(strategy, daysUntil, importance, hours, dependencies, clauses)
    ensures clauses == ReasonClauses(strategy, daysUntil, importance, hours, dependencies)
  {
    ReasonClausesExplains(strategy, daysUntil, importance, hours, dependencies);
    SameMembersInSlotOrder(clauses, ReasonClauses(strategy, daysUntil, importance, hours, dependencies));
  }
}
