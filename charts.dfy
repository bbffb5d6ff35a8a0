/** The data behind the doughnut chart of `CHARTS.updateExpenseChart`
    (js/charts.js:13-35): the month's transactions grouped by category in
    order of first appearance, each category's total, and its colour. The
    chart widget itself is not modelled. */
module ExpenseChart {
  import opened Seqs
  import opened Records

  /** `categories[key]`: the running total and the last type seen. */
  datatype Bucket = Bucket(amount: int, kind: string)

  const IncomeColor: string := "#10b981"
  const ExpenseColors: seq<string> := ["#ef4444", "#f59e0b", "#3b82f6", "#6366f1", "#8b5cf6", "#ec4899"]

  /** The categories of the transactions, each once, in order of first appearance. */
  function Categories(ts: seq<Transaction>): seq<string>
  {
    if |ts| == 0 then []
    else
      var init := Categories(ts[..|ts| - 1]);
      var c := ts[|ts| - 1].category;
      if c in init then init else init + [c]
  }

  /** Every category that occurs is listed, and nothing else is. */
  lemma {:induction false} CategoriesCover(ts: seq<Transaction>)
    ensures forall c :: c in Categories(ts) <==> exists j :: 0 <= j < |ts| && ts[j].category == c
  {
    if |ts| > 0 {
      var init := ts[..|ts| - 1];
      CategoriesCover(init);
      forall c | c in Categories(ts)
        ensures exists j :: 0 <= j < |ts| && ts[j].category == c
      {
        if c in Categories(init) {
          var j :| 0 <= j < |init| && init[j].category == c;
          assert ts[j].category == c;
        }
      }
    }
  }

  predicate Distinct(s: seq<string>)
  {
    forall i, j :: 0 <= i < j < |s| ==> s[i] != s[j]
  }

  /** No category is listed twice. */
  lemma {:induction false} CategoriesDistinct(ts: seq<Transaction>)
    ensures Distinct(Categories(ts))
  {
    if |ts| > 0 {
      CategoriesDistinct(ts[..|ts| - 1]);
    }
  }

  /** The sum of the amounts of the transactions in category `c`. */
  function CategoryTotal(ts: seq<Transaction>, c: string): int
  {
    Total(Filter(ts, (t: Transaction) => t.category == c), Amount)
  }

  /** The type of the last transaction in category `c`, if any. */
  function LastKind(ts: seq<Transaction>, c: string): Option<string>
  {
    if |ts| == 0 then None
    else if ts[|ts| - 1].category == c then Some(ts[|ts| - 1].kind)
    else LastKind(ts[..|ts| - 1], c)
  }

  /** The recorded type is that of a transaction in the category after
      which no transaction of that category follows; there is one exactly
      when the category occurs. */
  lemma {:induction false} LastKindIsLast(ts: seq<Transaction>, c: string)
    ensures LastKind(ts, c).None? <==> forall j :: 0 <= j < |ts| ==> ts[j].category != c
    ensures LastKind(ts, c).Some? ==>
      exists j :: 0 <= j < |ts| && ts[j].category == c && ts[j].kind == LastKind(ts, c).value
        && forall k :: j < k < |ts| ==> ts[k].category != c
  {
    if |ts| > 0 && ts[|ts| - 1].category != c {
      var init := ts[..|ts| - 1];
      LastKindIsLast(init, c);
      if LastKind(init, c).Some? {
        var j :| 0 <= j < |init| && init[j].category == c && init[j].kind == LastKind(init, c).value
          && forall k :: j < k < |init| ==> init[k].category != c;
        assert ts[j] == init[j];
      }
    }
  }

  lemma CategoryTotalAppend(ts: seq<Transaction>, t: Transaction, c: string)
    ensures CategoryTotal(ts + [t], c) == CategoryTotal(ts, c) + (if t.category == c then t.amount else 0)
  {
    var p := (x: Transaction) => x.category == c;
    FilterAppend(ts, [t], p);
    TotalAppend(Filter(ts, p), Filter([t], p), Amount);
  }

  /** `categories` after the `forEach` over `ts`, one transaction at a time. */
  function Buckets(ts: seq<Transaction>): map<string, Bucket>
  {
    if |ts| == 0 then map[]
    else
      var before := Buckets(ts[..|ts| - 1]);
      var t := ts[|ts| - 1];
      var start := if t.category in before then before[t.category].amount else 0;
      before[t.category := Bucket(start + t.amount, t.kind)]
  }

  /** The keys of `categories` are the listed categories. */
  lemma {:induction false} BucketsKeys(ts: seq<Transaction>)
    ensures forall c :: c in Buckets(ts) <==> c in Categories(ts)
  {
    if |ts| > 0 {
      BucketsKeys(ts[..|ts| - 1]);
    }
  }

  /** Each key holds the total of its category; a category without a key
      has no transactions to add up. */
  lemma {:induction false} BucketsTotals(ts: seq<Transaction>, c: string)
    ensures CategoryTotal(ts, c) == if c in Buckets(ts) then Buckets(ts)[c].amount else 0
  {
    if |ts| > 0 {
      var init, t := ts[..|ts| - 1], ts[|ts| - 1];
      BucketsTotals(init, c);
      assert ts == init + [t];
      CategoryTotalAppend(init, t, c);
    }
  }

  /** Each key holds the type of the last transaction of its category. */
  lemma {:induction false} BucketsLastKind(ts: seq<Transaction>, c: string)
    ensures LastKind(ts, c) == if c in Buckets(ts) then Some(Buckets(ts)[c].kind) else None
  {
    if |ts| > 0 {
      BucketsLastKind(ts[..|ts| - 1], c);
    }
  }

  /** The `forEach` that fills `categories`, with `Object.keys` kept
      alongside as the list of keys in insertion order. */
  method GroupByCategory(ts: seq<Transaction>) returns (labels: seq<string>, buckets: map<string, Bucket>)
    ensures labels == Categories(ts)
    ensures forall c :: c in buckets <==> c in labels
    ensures forall c :: c in buckets ==> buckets[c].amount == CategoryTotal(ts, c)
    ensures forall c :: c in buckets ==> LastKind(ts, c) == Some(buckets[c].kind)
  {
    labels, buckets := [], map[];
    var i := 0;
    while i < |ts|
      invariant 0 <= i <= |ts|
      invariant labels == Categories(ts[..i]) && buckets == Buckets(ts[..i])
    {
      var t := ts[i];
      var key := t.category;
      BucketsKeys(ts[..i]);
      var bucket := Bucket(0, t.kind);
      if key in buckets {
        bucket := buckets[key];
      } else {
        labels := labels + [key];
      }
      buckets := buckets[key := Bucket(bucket.amount + t.amount, t.kind)];
      ghost var next := ts[..i + 1];
      assert next[..|next| - 1] == ts[..i] && next[|next| - 1] == t;
      i := i + 1;
    }
    assert ts[..i] == ts;
    BucketsKeys(ts);
    forall c | c in buckets
      ensures buckets[c].amount == CategoryTotal(ts, c)
      ensures LastKind(ts, c) == Some(buckets[c].kind)
    {
      BucketsTotals(ts, c);
      BucketsLastKind(ts, c);
    }
  }

  /** `expenseColors[index % expenseColors.length]`, or green for income. */
  function SliceColor(kind: string, index: nat): (color: string)
    ensures color == IncomeColor <==> kind == "income"
  {
    if kind == "income" then IncomeColor else ExpenseColors[index % |ExpenseColors|]
  }

  /** Lines 13-35 of `updateExpenseChart`: the labels, the slice values and
      the slice colours handed to the chart. */
  method ChartSeries(ts: seq<Transaction>) returns (labels: seq<string>, data: seq<int>, colors: seq<string>)
    ensures Distinct(labels)
    ensures forall c :: c in labels <==> exists j :: 0 <= j < |ts| && ts[j].category == c
    ensures |data| == |labels| && |colors| == |labels|
    ensures forall k :: 0 <= k < |labels| ==> data[k] == CategoryTotal(ts, labels[k])
    ensures forall k :: 0 <= k < |labels| ==>
      (colors[k] == IncomeColor <==> LastKind(ts, labels[k]) == Some("income"))
    ensures forall k :: 0 <= k < |labels| && LastKind(ts, labels[k]) != Some("income") ==>
      colors[k] == ExpenseColors[k % 6]
  {
    var buckets;
    labels, buckets := GroupByCategory(ts);
    CategoriesDistinct(ts);
    CategoriesCover(ts);
    data := seq(|labels|, k requires 0 <= k < |labels| => buckets[labels[k]].amount);
    colors := seq(|labels|, k requires 0 <= k < |labels| => SliceColor(buckets[labels[k]].kind, k));
  }

  /** The slice values for a list of labels. */
  function SliceSum(labels: seq<string>, ts: seq<Transaction>): int
  {
    if |labels| == 0 then 0
    else SliceSum(labels[..|labels| - 1], ts) + CategoryTotal(ts, labels[|labels| - 1])
  }

  lemma {:induction false} SliceSumEmpty(labels: seq<string>)
    ensures SliceSum(labels, []) == 0
  {
    if |labels| > 0 {
      SliceSumEmpty(labels[..|labels| - 1]);
    }
  }

  /** One more transaction adds its amount to the slice of its category,
      counted once when its category is listed once. */
  lemma {:induction false} SliceSumAppend(labels: seq<string>, ts: seq<Transaction>, t: Transaction)
    requires Distinct(labels)
    ensures SliceSum(labels, ts + [t]) == SliceSum(labels, ts) + (if t.category in labels then t.amount else 0)
  {
    if |labels| > 0 {
      var init := labels[..|labels| - 1];
      var last := labels[|labels| - 1];
      SliceSumAppend(init, ts, t);
      assert labels == init + [last];
      assert last !in init;
      var p := (x: Transaction) => x.category == last;
      FilterAppend(ts, [t], p);
      TotalAppend(Filter(ts, p), Filter([t], p), Amount);
    }
  }

  /** The slices of the doughnut add up to the sum of all the amounts. */
  lemma {:induction false} SlicesAddUp(ts: seq<Transaction>)
    ensures SliceSum(Categories(ts), ts) == Total(ts, Amount)
  {
    var labels := Categories(ts);
    CategoriesDistinct(ts);
    CategoriesCover(ts);
    SlicesCover(labels, ts);
  }

  lemma {:induction false} SlicesCover(labels: seq<string>, ts: seq<Transaction>)
    requires Distinct(labels)
    requires forall j :: 0 <= j < |ts| ==> ts[j].category in labels
    ensures SliceSum(labels, ts) == Total(ts, Amount)
  {
    if |ts| == 0 {
      SliceSumEmpty(labels);
    } else {
      var init := ts[..|ts| - 1];
      SlicesCover(labels, init);
      assert ts == init + [ts[|ts| - 1]];
      SliceSumAppend(labels, init, ts[|ts| - 1]);
    }
  }
}
