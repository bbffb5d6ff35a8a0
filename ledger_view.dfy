/** The computations inside the screens of js/ui.js: the month view of a
    user's transactions with its sort and its income, expense and balance
    cards; the progress bar of a goal; the goal history list; and the short
    savings history. The markup around them is not modelled. */
module LedgerView {
  import opened Seqs
  import opened Calendar
  import opened Records
  import opened Balances

  /** The transactions dated in the selected month (1 to 12) and year. */
  function InMonth(ts: seq<Transaction>, month: int, year: int): (r: seq<Transaction>)
    ensures forall t :: t in r <==> t in ts && t.date.month == month && t.date.year == year
  {
    Filter(ts, (t: Transaction) => t.date.month == month && t.date.year == year)
  }

  /** The month view is the user's transactions in that month, in stored
      order: filtering by month distributes over any split of the list. */
  lemma InMonthAppend(a: seq<Transaction>, b: seq<Transaction>, month: int, year: int)
    ensures InMonth(a + b, month, year) == InMonth(a, month, year) + InMonth(b, month, year)
  {
    FilterAppend(a, b, (t: Transaction) => t.date.month == month && t.date.year == year);
  }

  /** Later dates come first. */
  predicate NewestFirst(s: seq<Transaction>)
  {
    forall i, j :: 0 <= i < j < |s| ==> DateKey(s[i].date) >= DateKey(s[j].date)
  }

  /** `filtered.sort((a, b) => new Date(b.date) - new Date(a.date))`, in
      place, as an insertion sort. */
  method SortNewestFirst(a: array<Transaction>)
    modifies a
    ensures NewestFirst(a[..])
    ensures multiset(a[..]) == multiset(old(a[..]))
  {
    var i := 0;
    while i < a.Length
      invariant 0 <= i <= a.Length
      invariant NewestFirst(a[..i])
      invariant multiset(a[..]) == multiset(old(a[..]))
    {
      InsertNewest(a, i);
      i := i + 1;
    }
    assert a[..a.Length] == a[..];
  }

  /** While `a[i]` moves down to position `j`: the prefix up to `i` is
      newest first apart from position `j`, whose entry is no older than
      anything after it, and everything before `j` is no older than anything
      after it. */
  predicate InsertingAt(s: seq<Transaction>, i: nat, j: nat)
    requires j <= i < |s|
  {
    && (forall p, q :: 0 <= p < q <= i && p != j && q != j ==> DateKey(s[p].date) >= DateKey(s[q].date))
    && (forall q :: j < q <= i ==> DateKey(s[j].date) >= DateKey(s[q].date))
    && (forall p, q :: 0 <= p < j < q <= i ==> DateKey(s[p].date) >= DateKey(s[q].date))
  }

  lemma StartInserting(s: seq<Transaction>, i: nat)
    requires i < |s| && NewestFirst(s[..i])
    ensures InsertingAt(s, i, i)
  {
    forall p, q | 0 <= p < q <= i && p != i && q != i
      ensures DateKey(s[p].date) >= DateKey(s[q].date)
    {
      assert s[..i][p] == s[p] && s[..i][q] == s[q];
    }
  }

  lemma {:induction false} SwapDown(s: seq<Transaction>, i: nat, j: nat)
    requires 0 < j <= i < |s| && InsertingAt(s, i, j)
    requires DateKey(s[j - 1].date) < DateKey(s[j].date)
    ensures InsertingAt(s[j - 1 := s[j]][j := s[j - 1]], i, j - 1)
    ensures multiset(s[j - 1 := s[j]][j := s[j - 1]]) == multiset(s)
  {
  }

  lemma FinishInserting(s: seq<Transaction>, i: nat, j: nat)
    requires j <= i < |s| && InsertingAt(s, i, j)
    requires j == 0 || DateKey(s[j - 1].date) >= DateKey(s[j].date)
    ensures NewestFirst(s[..i + 1])
  {
  }

  /** Moves `a[i]` down into the newest-first prefix `a[..i]`. */
  method InsertNewest(a: array<Transaction>, i: nat)
    requires i < a.Length && NewestFirst(a[..i])
    modifies a
    ensures NewestFirst(a[..i + 1])
    ensures multiset(a[..]) == multiset(old(a[..]))
  {
    StartInserting(a[..], i);
    var j := i;
    while j > 0 && DateKey(a[j - 1].date) < DateKey(a[j].date)
      invariant 0 <= j <= i
      invariant multiset(a[..]) == multiset(old(a[..]))
      invariant InsertingAt(a[..], i, j)
    {
      ghost var s := a[..];
      SwapDown(s, i, j);
      a[j - 1], a[j] := a[j], a[j - 1];
      assert a[..] == s[j - 1 := s[j]][j := s[j - 1]];
      j := j - 1;
    }
    FinishInserting(a[..], i, j);
  }

  /** What a transaction adds to the income card and to the expense card:
      `type === 'income'` is income, every other type is expense. */
  function IncomePart(t: Transaction): int
  {
    if t.kind == "income" then t.amount else 0
  }

  function ExpensePart(t: Transaction): int
  {
    if t.kind == "income" then 0 else t.amount
  }

  /** The `forEach` that accumulates the two cards. */
  method SumIncomeExpense(ts: seq<Transaction>) returns (income: int, expense: int)
    ensures income == Total(ts, IncomePart)
    ensures expense == Total(ts, ExpensePart)
  {
    income, expense := 0, 0;
    var i := 0;
    while i < |ts|
      invariant 0 <= i <= |ts|
      invariant income == Total(ts[..i], IncomePart)
      invariant expense == Total(ts[..i], ExpensePart)
    {
      assert ts[..i + 1][..i] == ts[..i];
      if ts[i].kind == "income" {
        income := income + ts[i].amount;
      } else {
        expense := expense + ts[i].amount;
      }
      i := i + 1;
    }
    assert ts[..i] == ts;
  }

  predicate IsIncome(t: Transaction)
  {
    t.kind == "income"
  }

  /** Income is the sum of the amounts of the income transactions, and
      nothing else. */
  lemma {:induction false} IncomeIsIncomeAmounts(ts: seq<Transaction>)
    ensures Total(ts, IncomePart) == Total(Filter(ts, IsIncome), Amount)
  {
    if |ts| > 0 {
      var init, last := ts[..|ts| - 1], ts[|ts| - 1];
      IncomeIsIncomeAmounts(init);
      assert Total(ts, IncomePart) == Total(init, IncomePart) + IncomePart(last);
      assert ts == init + [last];
      FilterAppend(init, [last], IsIncome);
      var kept := Filter([last], IsIncome);
      assert kept == if IsIncome(last) then [last] else [];
      assert Total(kept, Amount) == IncomePart(last);
      TotalAppend(Filter(init, IsIncome), kept, Amount);
    }
  }

  /** Every transaction is counted on exactly one card, so income plus
      expense is the sum of all amounts shown. */
  lemma {:induction false} CardsPartitionAmounts(ts: seq<Transaction>)
    ensures Total(ts, IncomePart) + Total(ts, ExpensePart) == Total(ts, Amount)
  {
    if |ts| > 0 {
      CardsPartitionAmounts(ts[..|ts| - 1]);
    }
  }

  /** `renderTransactions` without the markup: the month's transactions,
      newest first, and the income, expense and balance cards. */
  method MonthSummary(ts: seq<Transaction>, month: int, year: int)
    returns (shown: seq<Transaction>, income: int, expense: int, balance: int)
    ensures multiset(shown) == multiset(InMonth(ts, month, year))
    ensures NewestFirst(shown)
    ensures income == Total(InMonth(ts, month, year), IncomePart)
    ensures expense == Total(InMonth(ts, month, year), ExpensePart)
    ensures balance == income - expense
    ensures income + expense == Total(InMonth(ts, month, year), Amount)
  {
    var filtered := InMonth(ts, month, year);
    var a := new Transaction[|filtered|](k requires 0 <= k < |filtered| => filtered[k]);
    assert a[..] == filtered;
    SortNewestFirst(a);
    shown := a[..];
    income, expense := SumIncomeExpense(shown);
    TotalPermutation(shown, filtered, IncomePart);
    TotalPermutation(shown, filtered, ExpensePart);
    CardsPartitionAmounts(filtered);
    balance := income - expense;
  }

  /** A number as JavaScript computes `current / target * 100` and then
      `Math.min(100, ...)`; a zero target gives plus infinity (capped to
      100), NaN or minus infinity. */
  datatype Percent = Number(value: real) | NotANumber | NegativeInfinity

  /** The width of a goal's progress bar. */
  function GoalProgress(current: int, target: int): (p: Percent)
    ensures p.Number? ==> p.value <= 100.0
    ensures target != 0 ==> p.Number?
    ensures target > 0 ==> (p.value == 100.0 <==> current >= target)
    ensures target > 0 && current < target ==> p.value * target as real == current as real * 100.0
    ensures target < 0 ==> (p.value == 100.0 <==> current <= target)
    ensures target < 0 && current > target ==> p.value * target as real == current as real * 100.0
    ensures target == 0 && current > 0 ==> p == Number(100.0)
    ensures target == 0 && current == 0 ==> p == NotANumber
    ensures target == 0 && current < 0 ==> p == NegativeInfinity
  {
    if target == 0 then
      if current > 0 then Number(100.0)
      else if current == 0 then NotANumber
      else NegativeInfinity
    else
      var ratio := current as real / target as real * 100.0;
      Number(if ratio < 100.0 then ratio else 100.0)
  }

  /** A deposit never shrinks the bar of a goal with a positive target. */
  lemma ProgressMonotone(current: int, more: int, target: int)
    requires target > 0 && current <= more
    ensures GoalProgress(current, target).value <= GoalProgress(more, target).value
  {
    var t := target as real;
    assert current as real / t <= more as real / t;
  }

  /** What the goal history dialog shows. */
  datatype HistoryView = Placeholder | Entries(items: seq<HistoryEntry>)

  /** The dialog shows the placeholder exactly for an empty history, and
      otherwise every entry, the latest first. */
  predicate ShowsHistory(v: HistoryView, h: seq<HistoryEntry>)
  {
    && (v.Placeholder? <==> |h| == 0)
    && (v.Entries? ==> |v.items| == |h| && forall k :: 0 <= k < |v.items| ==> v.items[k] == h[|h| - 1 - k])
  }

  /** `openGoalHistory`: nothing for an unknown goal; the placeholder for an
      empty history; otherwise the entries newest first, the stored history
      itself left as it is. */
  function GoalHistoryView(goals: seq<Goal>, goalId: string): (v: Option<HistoryView>)
    ensures v.None? <==> forall j :: 0 <= j < |goals| ==> goals[j].id != goalId
    ensures v.Some? ==> ShowsHistory(v.value, goals[GoalIndex(goals, goalId).value].history)
  {
    match GoalIndex(goals, goalId)
    case None => None
    case Some(j) =>
      var h := goals[j].history;
      if |h| == 0 then Some(Placeholder)
      else
        var items := Reverse(h);
        assert forall k :: 0 <= k < |items| ==> items[k] == h[|h| - 1 - k] by {
          forall k | 0 <= k < |items| ensures items[k] == h[|h| - 1 - k] {
            ReverseAt(h, k);
          }
        }
        Some(Entries(items))
  }

  /** Reading the dialog from the bottom gives back the stored history. */
  lemma HistoryViewRoundTrip(goals: seq<Goal>, goalId: string)
    requires GoalHistoryView(goals, goalId).Some? && GoalHistoryView(goals, goalId).value.Entries?
    ensures Reverse(GoalHistoryView(goals, goalId).value.items)
            == goals[GoalIndex(goals, goalId).value].history
  {
    ReverseReverse(goals[GoalIndex(goals, goalId).value].history);
  }

  /** `history.slice(-5).reverse()`: at most the five latest entries, newest first. */
  function RecentSavings(h: seq<HistoryEntry>): (r: seq<HistoryEntry>)
    ensures |r| == if |h| < 5 then |h| else 5
    ensures forall k :: 0 <= k < |r| ==> r[k] == h[|h| - 1 - k]
  {
    var n := if |h| < 5 then |h| else 5;
    var tail := h[|h| - n..];
    var r := Reverse(tail);
    assert forall k :: 0 <= k < |r| ==> r[k] == h[|h| - 1 - k] by {
      forall k | 0 <= k < |r| ensures r[k] == h[|h| - 1 - k] {
        ReverseAt(tail, k);
      }
    }
    r
  }

  /** After a movement the new entry heads the list and the previous list
      moves down one place, losing its oldest entry once there are five. */
  lemma RecentAfterMovement(h: seq<HistoryEntry>, e: HistoryEntry)
    ensures RecentSavings(h + [e]) ==
            [e] + RecentSavings(h)[..if |h| < 4 then |h| else 4]
  {
    var r := RecentSavings(h + [e]);
    var s := [e] + RecentSavings(h)[..if |h| < 4 then |h| else 4];
    assert |r| == |s|;
    forall k | 0 <= k < |r|
      ensures r[k] == s[k]
    {
      if k > 0 {
        assert s[k] == RecentSavings(h)[k - 1];
      }
    }
  }
}
