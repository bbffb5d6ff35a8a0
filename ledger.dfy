/** What `DB.addTransaction` and `DB.deleteTransaction` do to the list of
    transactions (js/db.js:87-122), as functions on values: the recurrence
    count, the records one call appends, and the removal by id. The store's
    methods are proved against these. */
module Ledger {
  import opened Seqs
  import opened Calendar
  import opened JsParseInt
  import opened Records

  /** `transaction.recurrence && transaction.recurrence !== 'none'`. */
  predicate Recurring(recurrence: string)
  {
    recurrence != "" && recurrence != "none"
  }

  /** `parseInt(recurrence) || 1`: NaN and zero fall back to one; a negative
      number is kept (and then expands to the original record alone). */
  function RecurrenceCount(recurrence: string): (n: int)
    ensures n != 0
    ensures ParseInt(recurrence).Some? && ParseInt(recurrence).value != 0 ==> n == ParseInt(recurrence).value
    ensures ParseInt(recurrence).None? || ParseInt(recurrence) == Some(0) ==> n == 1
  {
    match ParseInt(recurrence)
    case None => 1
    case Some(n) => if n == 0 then 1 else n
  }

  /** Occurrence `i` of a recurring transaction: a copy with its own id and
      the date moved `i` months from the original's. */
  function Sibling(t: Transaction, i: nat, id: string): Transaction
  {
    t.(id := id, date := AddMonths(t.date, i))
  }

  /** The original followed by `count - 1` siblings, occurrence `i` taking the
      id `freshId(i)`; a count below one leaves the original alone. */
  function Expansion(t: Transaction, count: int, freshId: nat -> string): (r: seq<Transaction>)
    ensures |r| == if count <= 1 then 1 else count
    ensures r[0] == t
  {
    if count <= 1 then [t]
    else Expansion(t, count - 1, freshId) + [Sibling(t, count - 1, freshId(count - 1))]
  }

  /** The records `addTransaction` appends for `t` (whose id and creation time are set). */
  function Recorded(t: Transaction, freshId: nat -> string): seq<Transaction>
  {
    if Recurring(t.recurrence) then Expansion(t, RecurrenceCount(t.recurrence), freshId) else [t]
  }

  /** Occurrence `k` of the expansion differs from the original only in its
      id, `freshId(k)`, and its date, `k` months later. */
  lemma {:induction false} ExpansionAt(t: Transaction, count: int, freshId: nat -> string, k: nat)
    requires 0 < k < count
    ensures Expansion(t, count, freshId)[k] == Sibling(t, k, freshId(k))
    ensures Expansion(t, count, freshId)[k].(id := t.id, date := t.date) == t
  {
    if k < count - 1 {
      ExpansionAt(t, count - 1, freshId, k);
    }
  }

  /** A transaction without a recurrence, or with "none", is recorded once. */
  lemma RecordedOnce(t: Transaction, freshId: nat -> string)
    requires !Recurring(t.recurrence)
    ensures Recorded(t, freshId) == [t]
  {
  }

  /** A recurrence that starts with the numeral of `n >= 1` records `n`
      occurrences, the first being the original. */
  lemma RecordedNumeral(t: Transaction, freshId: nat -> string, n: nat)
    requires n >= 1 && t.recurrence == Decimal(n)
    ensures |Recorded(t, freshId)| == n
    ensures Recorded(t, freshId)[0] == t
  {
    var r := t.recurrence;
    assert '0' <= r[0] <= '9';
    assert r != "none" by {
      assert "none"[0] == 'n';
    }
    ParseDecimal(n);
    assert RecurrenceCount(r) == n;
    assert Recurring(r);
    assert Recorded(t, freshId) == Expansion(t, n, freshId);
  }

  /** A recurrence that is not a number ("monthly") records the original alone. */
  lemma RecordedUnparsable(t: Transaction, freshId: nat -> string)
    requires Recurring(t.recurrence) && ParseInt(t.recurrence).None?
    ensures Recorded(t, freshId) == [t]
  {
  }

  /** A recurrence of `"0"` falls back to one: the input alone is recorded. */
  lemma RecordedZero(t: Transaction, freshId: nat -> string)
    requires t.recurrence == "0"
    ensures Recorded(t, freshId) == [t]
  {
    ParseDecimal(0);
    assert Decimal(0) == "0";
  }

  /** With ids drawn without repetition, every occurrence has its own id. */
  lemma ExpansionIdsDistinct(t: Transaction, count: int, freshId: nat -> string, j: nat, k: nat)
    requires t.id == freshId(0)
    requires forall a: nat, b: nat :: a < b < count ==> freshId(a) != freshId(b)
    requires j < k < |Expansion(t, count, freshId)|
    ensures Expansion(t, count, freshId)[j].id != Expansion(t, count, freshId)[k].id
  {
    ExpansionAt(t, count, freshId, k);
    if j > 0 {
      ExpansionAt(t, count, freshId, j);
    }
  }

  /** A monthly recurrence of three from 31 January 2024: the code's month
      shift yields 31 January, 2 March and 31 March, not a date in February. */
  lemma ThreeFromJanuaryThirtyFirst(t: Transaction, freshId: nat -> string)
    requires t.date == CalendarDate(2024, 1, 31) && t.recurrence == "3"
    ensures |Recorded(t, freshId)| == 3
    ensures Recorded(t, freshId)[1].date == CalendarDate(2024, 3, 2)
    ensures Recorded(t, freshId)[2].date == CalendarDate(2024, 3, 31)
  {
    assert Decimal(3) == "3";
    RecordedNumeral(t, freshId, 3);
    ExpansionAt(t, 3, freshId, 1);
    ExpansionAt(t, 3, freshId, 2);
    JanuaryThirtyFirstRollsOver();
  }

  /** `transactions.filter(t => t.id !== id)`. */
  function WithoutTransaction(ts: seq<Transaction>, id: string): (r: seq<Transaction>)
    ensures forall t :: t in r <==> t in ts && t.id != id
  {
    Filter(ts, (t: Transaction) => t.id != id)
  }

  /** Deleting removes the records with that id and keeps the rest in order:
      removal distributes over any split of the list. */
  lemma WithoutTransactionAppend(a: seq<Transaction>, b: seq<Transaction>, id: string)
    ensures WithoutTransaction(a + b, id) == WithoutTransaction(a, id) + WithoutTransaction(b, id)
  {
    FilterAppend(a, b, (t: Transaction) => t.id != id);
  }

  /** Deleting an id that no record has changes nothing. */
  lemma WithoutAbsentTransaction(ts: seq<Transaction>, id: string)
    requires forall j :: 0 <= j < |ts| ==> ts[j].id != id
    ensures WithoutTransaction(ts, id) == ts
  {
    FilterKeepsAll(ts, (t: Transaction) => t.id != id);
  }

  /** Deleting one occurrence of a recurring transaction keeps all its siblings. */
  lemma DeleteOccurrenceKeepsSiblings(
    prior: seq<Transaction>, t: Transaction, count: int, freshId: nat -> string, j: nat, k: nat)
    requires t.id == freshId(0)
    requires forall a: nat, b: nat :: a < b < count ==> freshId(a) != freshId(b)
    requires j < |Expansion(t, count, freshId)| && k < |Expansion(t, count, freshId)| && j != k
    ensures var e := Expansion(t, count, freshId);
            e[j] in WithoutTransaction(prior + e, e[k].id)
  {
    var e := Expansion(t, count, freshId);
    if j < k {
      ExpansionIdsDistinct(t, count, freshId, j, k);
    } else {
      ExpansionIdsDistinct(t, count, freshId, k, j);
    }
    assert e[j] in prior + e;
  }

  /** `transactions.filter(t => t.userId === userId)`. */
  function TransactionsOf(ts: seq<Transaction>, userId: string): (r: seq<Transaction>)
    ensures forall t :: t in r <==> t in ts && t.userId == userId
  {
    Filter(ts, (t: Transaction) => t.userId == userId)
  }
}
