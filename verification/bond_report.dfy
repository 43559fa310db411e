/** The bond report: expense rows into totals, status buckets and sorted category buckets. */
module BondReport {
  import opened Prelude
  import opened ExpenseModel

  /** Category ids numbered in collation order. */
  type CategoryId = int

  datatype ReportExpense = ReportExpense(status: Status, cents: int, category: Option<CategoryId>, deleted: bool)

  datatype Bucket = Bucket(count: nat, cents: int)

  const EMPTY_BUCKET := Bucket(0, 0)

  /** What the report asks of a row. */
  datatype Query = Live | Eligible | InStatus(status: Status) | InCategory(category: Option<CategoryId>)

  predicate Meets(row: ReportExpense, query: Query) {
    && !row.deleted
    && match query
       case Live => true
       case Eligible => row.status != Rejected
       case InStatus(status) => row.status == status
       case InCategory(category) => row.status != Rejected && row.category == category
  }

  /** A report counts rows or adds up their amounts. */
  datatype Measure = Rows | Money

  function Worth(row: ReportExpense, query: Query, measure: Measure): int {
    if !Meets(row, query) then 0 else if measure.Rows? then 1 else row.cents
  }

  /** The measure of the rows that answer a query. */
  function Sum(rows: seq<ReportExpense>, query: Query, measure: Measure): (sum: int)
    ensures measure.Rows? ==> sum >= 0
  {
    if rows == [] then 0
    else Sum(rows[..|rows| - 1], query, measure) + Worth(rows[|rows| - 1], query, measure)
  }

  function Tally(rows: seq<ReportExpense>, query: Query): Bucket {
    Bucket(Sum(rows, query, Rows), Sum(rows, query, Money))
  }

  lemma SumAdded(rows: seq<ReportExpense>, row: ReportExpense, query: Query, measure: Measure)
    ensures Sum(rows + [row], query, measure) == Sum(rows, query, measure) + Worth(row, query, measure)
  {
    assert (rows + [row])[..|rows|] == rows;
  }

  lemma SumNext(rows: seq<ReportExpense>, i: nat, query: Query, measure: Measure)
    requires i < |rows|
    ensures Sum(rows[..i + 1], query, measure) == Sum(rows[..i], query, measure) + Worth(rows[i], query, measure)
  {
    assert rows[..i + 1][..i] == rows[..i];
  }

  lemma {:induction false} SumConcat(a: seq<ReportExpense>, b: seq<ReportExpense>, query: Query, measure: Measure)
    ensures Sum(a + b, query, measure) == Sum(a, query, measure) + Sum(b, query, measure)
  {
    hide Worth;
    if b == [] {
      assert a + b == a;
    } else {
      SumConcat(a, b[..|b| - 1], query, measure);
      assert (a + b)[..|a + b| - 1] == a + b[..|b| - 1];
    }
  }

  lemma SumWithout(left: seq<ReportExpense>, row: ReportExpense, right: seq<ReportExpense>, query: Query,
                   measure: Measure)
    ensures Sum(left + [row] + right, query, measure) == Sum(left + right, query, measure) + Worth(row, query, measure)
  {
    hide Sum, Worth;
    SumConcat(left, right, query, measure);
    SumAdded(left, row, query, measure);
    SumConcat(left + [row], right, query, measure);
  }

  /** A tally reads the rows as a bag: the order the database returns them in is immaterial. */
  lemma {:induction false} TallyIgnoresOrder(a: seq<ReportExpense>, b: seq<ReportExpense>, query: Query,
                                             measure: Measure)
    requires multiset(a) == multiset(b)
    ensures Sum(a, query, measure) == Sum(b, query, measure)
  {
    hide Sum, Worth;
    if a == [] {
      assert |multiset(b)| == 0;
    } else {
      var init, last := a[..|a| - 1], a[|a| - 1];
      var left, right := SplitAt(b, last, a);
      SameBagWithout(init, last, left, right, a, b);
      TallyIgnoresOrder(init, left + right, query, measure);
      SumWithout(left, last, right, query, measure);
      SumAdded(init, last, query, measure);
    }
  }

  lemma SplitAt(b: seq<ReportExpense>, row: ReportExpense, a: seq<ReportExpense>)
    returns (left: seq<ReportExpense>, right: seq<ReportExpense>)
    requires multiset(a) == multiset(b) && row in a
    ensures |b| == |left| + 1 + |right|
    ensures b[..|left|] == left && b[|left|] == row && b[|left| + 1..] == right
  {
    assert row in multiset(b);
    var i :| 0 <= i < |b| && b[i] == row;
    left, right := b[..i], b[i + 1..];
  }

  lemma OneLess(a: multiset<ReportExpense>, b: multiset<ReportExpense>, row: ReportExpense)
    requires a + multiset{row} == b + multiset{row}
    ensures a == b
  {
    assert a == a + multiset{row} - multiset{row};
  }

  lemma SameBagWithout(init: seq<ReportExpense>, last: ReportExpense, left: seq<ReportExpense>,
                       right: seq<ReportExpense>, a: seq<ReportExpense>, b: seq<ReportExpense>)
    requires a == init + [last] && |b| == |left| + 1 + |right|
    requires b[..|left|] == left && b[|left|] == last && b[|left| + 1..] == right
    requires multiset(a) == multiset(b)
    ensures b == left + [last] + right
    ensures multiset(init) == multiset(left + right)
  {
    assert b == left + [last] + right;
    calc {
      multiset(init) + multiset{last};
      multiset(a);
      multiset(left) + multiset{last} + multiset(right);
      multiset(left + right) + multiset{last};
    }
    OneLess(multiset(init), multiset(left + right), last);
  }

  lemma StatusesPartRow(row: ReportExpense, measure: Measure)
    ensures Worth(row, Eligible, measure)
         == Worth(row, InStatus(Pending), measure) + Worth(row, InStatus(Approved), measure)
            + Worth(row, InStatus(Paid), measure)
    ensures Worth(row, Live, measure) == Worth(row, Eligible, measure) + Worth(row, InStatus(Rejected), measure)
  {
  }

  /** Each undeleted row lies in one status: the totals are what the status tallies add up to. */
  lemma {:induction false} StatusesPartition(rows: seq<ReportExpense>, measure: Measure)
    ensures Sum(rows, Eligible, measure)
         == Sum(rows, InStatus(Pending), measure) + Sum(rows, InStatus(Approved), measure)
            + Sum(rows, InStatus(Paid), measure)
    ensures Sum(rows, Live, measure) == Sum(rows, Eligible, measure) + Sum(rows, InStatus(Rejected), measure)
  {
    hide Worth;
    if rows != [] {
      StatusesPartition(rows[..|rows| - 1], measure);
      StatusesPartRow(rows[|rows| - 1], measure);
    }
  }

  function SumAll(rows: seq<ReportExpense>, categories: seq<Option<CategoryId>>, measure: Measure): int {
    if categories == [] then 0
    else
      SumAll(rows, categories[..|categories| - 1], measure)
      + Sum(rows, InCategory(categories[|categories| - 1]), measure)
  }

  lemma {:induction false} SumAllNext(rows: seq<ReportExpense>, categories: seq<Option<CategoryId>>, measure: Measure)
    requires rows != [] && Distinct(categories)
    ensures SumAll(rows, categories, measure)
         == SumAll(rows[..|rows| - 1], categories, measure)
            + if rows[|rows| - 1].category in categories then Worth(rows[|rows| - 1], Eligible, measure) else 0
  {
    if categories != [] {
      var init, key := categories[..|categories| - 1], categories[|categories| - 1];
      SumAllNext(rows, init, measure);
      assert categories == init + [key];
      var last := rows[|rows| - 1];
      assert Worth(last, InCategory(key), measure)
          == if last.category == key then Worth(last, Eligible, measure) else 0;
      hide Worth;
      assert last.category in categories <==> last.category in init || last.category == key;
    }
  }

  /** The category tallies over any complete list of categories add up to the eligible rows. */
  lemma {:induction false} CategoriesPartition(rows: seq<ReportExpense>, categories: seq<Option<CategoryId>>,
                                               measure: Measure)
    requires Distinct(categories)
    requires forall row :: row in rows && Meets(row, Eligible) ==> row.category in categories
    ensures SumAll(rows, categories, measure) == Sum(rows, Eligible, measure)
  {
    if rows == [] {
      NothingToSum(categories, measure);
    } else {
      var last := rows[|rows| - 1];
      assert last.category in categories || Worth(last, Eligible, measure) == 0;
      hide Worth, SumAll;
      SumAllNext(rows, categories, measure);
      CategoriesPartition(rows[..|rows| - 1], categories, measure);
    }
  }

  lemma {:induction false} NothingToSum(categories: seq<Option<CategoryId>>, measure: Measure)
    ensures SumAll([], categories, measure) == 0
  {
    if categories != [] {
      NothingToSum(categories[..|categories| - 1], measure);
    }
  }

  lemma {:induction false} CountedExists(rows: seq<ReportExpense>, row: ReportExpense, query: Query)
    requires row in rows && Meets(row, query)
    ensures Sum(rows, query, Rows) > 0
  {
    var init, last := rows[..|rows| - 1], rows[|rows| - 1];
    assert rows == init + [last];
    if row in init {
      CountedExists(init, row, query);
    }
  }

  // ---------------------------------------------------------------- percentages

  /** `percentage`, in hundredths of a percent: nearest, halves up, 0 of nothing. */
  function Percentage(numerator: int, denominator: int): int {
    if denominator == 0 then 0
    else
      var (n, d) := if denominator > 0 then (numerator, denominator) else (-numerator, -denominator);
      (2 * n * WHOLE + d) / (2 * d)
  }

  lemma ProductGrows(a: int, b: int, whole: int)
    requires a <= b && whole > 0
    ensures a * whole <= b * whole
  {
  }

  lemma MultipleBounds(p: int, whole: int, product: int)
    requires whole > 0 && product == p * whole
    ensures p < 0 ==> product <= -whole
    ensures p > WHOLE ==> product >= (WHOLE + 1) * whole
    ensures p < WHOLE ==> product <= (WHOLE - 1) * whole
    ensures p == WHOLE ==> product == WHOLE * whole
  {
    if p < 0 {
      ProductGrows(p, -1, whole);
    }
    if p > WHOLE {
      ProductGrows(WHOLE + 1, p, whole);
    } else if p < WHOLE {
      ProductGrows(p, WHOLE - 1, whole);
    }
  }

  lemma PercentageIsNearest(part: int, whole: int) returns (product: int)
    requires whole > 0
    ensures product == Percentage(part, whole) * whole
    ensures -whole < 2 * (part * WHOLE - product) + 1 <= whole + 1
  {
    var p := Percentage(part, whole);
    product := p * whole;
    DivBounds(2 * part * WHOLE + whole, 2 * whole);
    assert p == (2 * part * WHOLE + whole) / (2 * whole);
    hide Percentage;
    assert 2 * whole * p == 2 * product;
  }

  /** A part of a whole is between 0 % and 100 %, and 100 % exactly when what is missing rounds away. */
  lemma PartIsAtMostWhole(part: int, whole: int)
    requires 0 <= part <= whole
    ensures 0 <= Percentage(part, whole) <= WHOLE
    ensures whole > 0 ==> (Percentage(part, whole) == WHOLE <==> 2 * WHOLE * (whole - part) <= whole)
    ensures whole == 0 ==> Percentage(part, whole) == 0
  {
    if whole > 0 {
      var product := PercentageIsNearest(part, whole);
      hide Percentage;
      MultipleBounds(Percentage(part, whole), whole, product);
    }
  }

  // ---------------------------------------------------------------- sorted category buckets

  datatype CategoryBucket = CategoryBucket(category: Option<CategoryId>, tally: Bucket)

  /** No category compares as the empty string, before every id. */
  predicate Collates(a: Option<CategoryId>, b: Option<CategoryId>) {
    b.Some? && (a.None? || a.value < b.value)
  }

  /** The comparator: larger amounts first, then by category. */
  predicate Before(a: CategoryBucket, b: CategoryBucket) {
    a.tally.cents > b.tally.cents || (a.tally.cents == b.tally.cents && Collates(a.category, b.category))
  }

  predicate Sorted(buckets: seq<CategoryBucket>) {
    forall i, j :: 0 <= i < j < |buckets| ==> Before(buckets[i], buckets[j])
  }

  function Placed(bucket: CategoryBucket, buckets: seq<CategoryBucket>): seq<CategoryBucket> {
    if buckets == [] || Before(bucket, buckets[0]) then [bucket] + buckets
    else [buckets[0]] + Placed(bucket, buckets[1..])
  }

  function Arranged(buckets: seq<CategoryBucket>): seq<CategoryBucket> {
    if buckets == [] then [] else Placed(buckets[0], Arranged(buckets[1..]))
  }

  function Categories(buckets: seq<CategoryBucket>): (keys: seq<Option<CategoryId>>)
    ensures |keys| == |buckets| && forall i :: 0 <= i < |keys| ==> keys[i] == buckets[i].category
  {
    seq(|buckets|, i requires 0 <= i < |buckets| => buckets[i].category)
  }

  lemma SortedCons(head: CategoryBucket, tail: seq<CategoryBucket>)
    requires Sorted(tail) && forall b :: b in tail ==> Before(head, b)
    ensures Sorted([head] + tail)
  {
  }

  lemma {:induction false} PlacedAdds(bucket: CategoryBucket, buckets: seq<CategoryBucket>)
    ensures multiset(Placed(bucket, buckets)) == multiset(buckets) + multiset{bucket}
  {
    hide Before;
    if buckets == [] || Before(bucket, buckets[0]) {
    } else {
      assert buckets == [buckets[0]] + buckets[1..];
      PlacedAdds(bucket, buckets[1..]);
    }
  }

  lemma PlacedHolds(bucket: CategoryBucket, buckets: seq<CategoryBucket>, b: CategoryBucket)
    ensures b in Placed(bucket, buckets) <==> b == bucket || b in buckets
  {
    PlacedAdds(bucket, buckets);
    assert b in Placed(bucket, buckets) <==> b in multiset(Placed(bucket, buckets));
    assert b in buckets <==> b in multiset(buckets);
  }

  lemma {:induction false} PlacedIsSorted(bucket: CategoryBucket, buckets: seq<CategoryBucket>)
    requires Sorted(buckets) && forall b :: b in buckets ==> b.category != bucket.category
    ensures Sorted(Placed(bucket, buckets))
  {
    if buckets == [] {
    } else if Before(bucket, buckets[0]) {
    } else {
      var head, rest := buckets[0], buckets[1..];
      assert Before(head, bucket);
      assert forall b :: b in rest ==> Before(head, b);
      hide Before;
      PlacedIsSorted(bucket, rest);
      forall b | b in Placed(bucket, rest)
        ensures Before(head, b)
      {
        PlacedHolds(bucket, rest, b);
      }
      SortedCons(head, Placed(bucket, rest));
    }
  }

  lemma {:induction false} ArrangedKeeps(buckets: seq<CategoryBucket>)
    ensures multiset(Arranged(buckets)) == multiset(buckets)
  {
    hide Placed;
    if buckets != [] {
      assert buckets == [buckets[0]] + buckets[1..];
      ArrangedKeeps(buckets[1..]);
      PlacedAdds(buckets[0], Arranged(buckets[1..]));
    }
  }

  lemma ArrangedHolds(buckets: seq<CategoryBucket>, b: CategoryBucket)
    ensures b in Arranged(buckets) <==> b in buckets
  {
    ArrangedKeeps(buckets);
    assert b in Arranged(buckets) <==> b in multiset(Arranged(buckets));
    assert b in buckets <==> b in multiset(buckets);
  }

  lemma {:induction false} ArrangedIsSorted(buckets: seq<CategoryBucket>)
    requires Distinct(Categories(buckets))
    ensures Sorted(Arranged(buckets))
  {
    hide Placed, Before;
    if buckets != [] {
      var rest := buckets[1..];
      assert Categories(rest) == Categories(buckets)[1..];
      ArrangedIsSorted(rest);
      forall b | b in Arranged(rest)
        ensures b.category != buckets[0].category
      {
        ArrangedHolds(rest, b);
        var i :| 0 <= i < |rest| && rest[i] == b;
        assert Categories(buckets)[i + 1] == b.category && Categories(buckets)[0] == buckets[0].category;
      }
      PlacedIsSorted(buckets[0], Arranged(rest));
    }
  }

  /** The head comes before the tail, so it is not in it. */
  lemma SortedTail(a: seq<CategoryBucket>, x: CategoryBucket)
    requires Sorted(a) && a != []
    ensures x in a[1..] <==> x in a && x != a[0]
    ensures x in a[1..] ==> Before(a[0], x)
  {
    assert a == [a[0]] + a[1..];
    if x in a[1..] {
      var i :| 0 <= i < |a[1..]| && a[1..][i] == x;
      assert Before(a[0], a[i + 1]);
    }
  }

  /** Sorted lists of the same buckets are the same list. */
  lemma {:induction false} SortedIsUnique(a: seq<CategoryBucket>, b: seq<CategoryBucket>)
    requires Sorted(a) && Sorted(b)
    requires forall x :: x in a <==> x in b
    ensures a == b
  {
    assert a != [] ==> a[0] in a;
    assert b != [] ==> b[0] in b;
    if a != [] {
      assert a[0] in b && b[0] in a;
      SortedTail(a, b[0]);
      SortedTail(b, a[0]);
      assert a[0] == b[0];
      forall x
        ensures x in a[1..] <==> x in b[1..]
      {
        SortedTail(a, x);
        SortedTail(b, x);
      }
      SortedIsUnique(a[1..], b[1..]);
    }
  }

  // ---------------------------------------------------------------- the expense section

  datatype ExpenseSection = ExpenseSection(
    totalAmount: int,
    paidAmount: int,
    pendingAmount: int,
    paidAmountPercentage: int,
    paidCountPercentage: int,
    byStatus: map<Status, Bucket>,
    byCategory: seq<CategoryBucket>
  )

  ghost predicate StatusBucketsOf(rows: seq<ReportExpense>, buckets: map<Status, Bucket>) {
    && (forall s :: s in buckets <==> Tally(rows, InStatus(s)).count > 0)
    && (forall s :: s in buckets ==> buckets[s] == Tally(rows, InStatus(s)))
  }

  ghost predicate CategoryBucketsOf(rows: seq<ReportExpense>, buckets: seq<CategoryBucket>) {
    && (forall b :: b in buckets ==> b.tally == Tally(rows, InCategory(b.category)) && b.tally.count > 0)
    && (forall c :: Tally(rows, InCategory(c)).count > 0 ==> c in Categories(buckets))
  }

  /** What the section must say of the rows. */
  ghost predicate Describes(section: ExpenseSection, rows: seq<ReportExpense>) {
    var all, paid := Tally(rows, Eligible), Tally(rows, InStatus(Paid));
    && section.totalAmount == all.cents
    && section.paidAmount == paid.cents
    && section.pendingAmount == Tally(rows, InStatus(Pending)).cents + Tally(rows, InStatus(Approved)).cents
    && section.paidAmountPercentage == Percentage(paid.cents, all.cents)
    && section.paidCountPercentage == Percentage(paid.count, all.count)
    && StatusBucketsOf(rows, section.byStatus)
    && CategoryBucketsOf(rows, section.byCategory)
    && Sorted(section.byCategory)
  }

  function Filtered(rows: seq<ReportExpense>, wanted: set<Status>): seq<ReportExpense> {
    if rows == [] then []
    else
      var init := Filtered(rows[..|rows| - 1], wanted);
      var last := rows[|rows| - 1];
      if !last.deleted && last.status in wanted then init + [last] else init
  }

  function SumCents(rows: seq<ReportExpense>): int {
    if rows == [] then 0 else SumCents(rows[..|rows| - 1]) + rows[|rows| - 1].cents
  }

  const ELIGIBLE := {Pending, Approved, Paid}

  function Picked(rows: seq<ReportExpense>, status: Status, wanted: set<Status>, measure: Measure): int {
    if status in wanted then Sum(rows, InStatus(status), measure) else 0
  }

  lemma {:induction false} FilteredTwice(rows: seq<ReportExpense>, wanted: set<Status>)
    requires wanted <= ELIGIBLE
    ensures Filtered(Filtered(rows, ELIGIBLE), wanted) == Filtered(rows, wanted)
  {
    if rows != [] {
      var init := Filtered(rows[..|rows| - 1], ELIGIBLE);
      FilteredTwice(rows[..|rows| - 1], wanted);
      assert (init + [rows[|rows| - 1]])[..|init|] == init;
    }
  }

  lemma {:induction false} FilteredSums(rows: seq<ReportExpense>, wanted: set<Status>)
    requires wanted <= ELIGIBLE
    ensures |Filtered(rows, wanted)|
         == Picked(rows, Pending, wanted, Rows) + Picked(rows, Approved, wanted, Rows)
            + Picked(rows, Paid, wanted, Rows)
    ensures SumCents(Filtered(rows, wanted))
         == Picked(rows, Pending, wanted, Money) + Picked(rows, Approved, wanted, Money)
            + Picked(rows, Paid, wanted, Money)
  {
    if rows != [] {
      var init, last := rows[..|rows| - 1], rows[|rows| - 1];
      FilteredSums(init, wanted);
      var before := Filtered(init, wanted);
      assert (before + [last])[..|before|] == before;
      PickedNext(rows, Pending, wanted);
      PickedNext(rows, Approved, wanted);
      PickedNext(rows, Paid, wanted);
      hide Picked;
    }
  }

  lemma PickedNext(rows: seq<ReportExpense>, status: Status, wanted: set<Status>)
    requires rows != []
    ensures var last := rows[|rows| - 1];
      forall measure :: Picked(rows, status, wanted, measure)
         == Picked(rows[..|rows| - 1], status, wanted, measure)
            + if !last.deleted && last.status == status && status in wanted
              then (if measure.Rows? then 1 else last.cents) else 0
  {
  }

  lemma {:induction false} EligibleSum(rows: seq<ReportExpense>, category: Option<CategoryId>, measure: Measure)
    ensures Sum(Filtered(rows, ELIGIBLE), InCategory(category), measure) == Sum(rows, InCategory(category), measure)
  {
    if rows != [] {
      var init, last := rows[..|rows| - 1], rows[|rows| - 1];
      EligibleSum(init, category, measure);
      var before := Filtered(init, ELIGIBLE);
      assert (before + [last])[..|before|] == before;
    }
  }

  lemma {:induction false} FilteredAreEligible(rows: seq<ReportExpense>)
    ensures forall row :: row in Filtered(rows, ELIGIBLE) ==> Meets(row, Eligible)
  {
    if rows != [] {
      FilteredAreEligible(rows[..|rows| - 1]);
    }
  }

  lemma {:induction false} EmptySum(rows: seq<ReportExpense>, query: Query)
    ensures Sum(rows, query, Rows) == 0 ==> Sum(rows, query, Money) == 0
  {
    if rows != [] {
      EmptySum(rows[..|rows| - 1], query);
    }
  }

  /** A bucket one row later: found or new, then its two increments. */
  lemma TallyNext(rows: seq<ReportExpense>, i: nat, query: Query)
    requires i < |rows|
    ensures var before := Tally(rows[..i], query);
            && (before.count == 0 ==> before == EMPTY_BUCKET)
            && Tally(rows[..i + 1], query)
               == if Meets(rows[i], query) then Bucket(before.count + 1, before.cents + rows[i].cents) else before
  {
    EmptySum(rows[..i], query);
    SumNext(rows, i, query, Rows);
    SumNext(rows, i, query, Money);
  }

  /** The status loop. */
  method StatusBuckets(rows: seq<ReportExpense>) returns (buckets: map<Status, Bucket>)
    ensures StatusBucketsOf(rows, buckets)
  {
    buckets := map[];
    for i := 0 to |rows|
      invariant StatusBucketsOf(rows[..i], buckets)
    {
      var row := rows[i];
      forall s: Status
        ensures Tally(rows[..i], InStatus(s)).count == 0 ==> Tally(rows[..i], InStatus(s)) == EMPTY_BUCKET
        ensures Tally(rows[..i + 1], InStatus(s))
             == var before := Tally(rows[..i], InStatus(s));
                if !row.deleted && row.status == s then Bucket(before.count + 1, before.cents + row.cents) else before
      {
        TallyNext(rows, i, InStatus(s));
      }
      hide Tally;
      if row.deleted {
        continue;
      }
      var bucket := if row.status in buckets then buckets[row.status] else EMPTY_BUCKET;
      bucket := bucket.(count := bucket.count + 1);
      bucket := bucket.(cents := bucket.cents + row.cents);
      buckets := buckets[row.status := bucket];
    }
    assert rows[..|rows|] == rows;
  }

  /** The category loop over the eligible rows: a map that remembers insertion order. */
  method CategoryBuckets(eligible: seq<ReportExpense>) returns (found: seq<CategoryBucket>)
    requires forall row :: row in eligible ==> Meets(row, Eligible)
    ensures CategoryBucketsOf(eligible, found)
    ensures Distinct(Categories(found))
  {
    var order: seq<Option<CategoryId>> := [];
    var buckets: map<Option<CategoryId>, Bucket> := map[];
    for i := 0 to |eligible|
      invariant Distinct(order)
      invariant forall c :: c in order <==> c in buckets
      invariant forall c :: c in buckets <==> Tally(eligible[..i], InCategory(c)).count > 0
      invariant forall c :: c in buckets ==> buckets[c] == Tally(eligible[..i], InCategory(c))
    {
      var row := eligible[i];
      assert Meets(row, Eligible);
      forall c: Option<CategoryId>
        ensures Tally(eligible[..i], InCategory(c)).count == 0 ==> Tally(eligible[..i], InCategory(c)) == EMPTY_BUCKET
        ensures Tally(eligible[..i + 1], InCategory(c))
             == var before := Tally(eligible[..i], InCategory(c));
                if row.category == c then Bucket(before.count + 1, before.cents + row.cents) else before
      {
        TallyNext(eligible, i, InCategory(c));
      }
      hide Tally, Meets;
      var bucket := if row.category in buckets then buckets[row.category] else EMPTY_BUCKET;
      bucket := bucket.(count := bucket.count + 1);
      bucket := bucket.(cents := bucket.cents + row.cents);
      if row.category !in buckets {
        order := order + [row.category];
      }
      buckets := buckets[row.category := bucket];
    }
    assert eligible[..|eligible|] == eligible;
    found := seq(|order|, i requires 0 <= i < |order| =>
                   assert order[i] in order; CategoryBucket(order[i], buckets[order[i]]));
    assert Categories(found) == order;
  }

  /** The expense section of `buildBondReport`. */
  method BuildExpenseSection(rows: seq<ReportExpense>) returns (section: ExpenseSection)
    ensures Describes(section, rows)
  {
    var byStatus := StatusBuckets(rows);
    var eligible := Filtered(rows, ELIGIBLE);
    var paidRows := Filtered(eligible, {Paid});
    var total, paid := SumCents(eligible), SumCents(paidRows);
    var pending := SumCents(Filtered(eligible, {Pending, Approved}));
    FilteredAreEligible(rows);
    var found := CategoryBuckets(eligible);
    var byCategory := Arranged(found);
    section := ExpenseSection(total, paid, pending, Percentage(paid, total), Percentage(|paidRows|, |eligible|),
                              byStatus, byCategory);
    TotalsDescribe(rows);
    ArrangedDescribes(rows, found);
  }

  lemma TotalsDescribe(rows: seq<ReportExpense>)
    ensures var eligible := Filtered(rows, ELIGIBLE);
            var paidRows := Filtered(eligible, {Paid});
            && Tally(rows, Eligible) == Bucket(|eligible|, SumCents(eligible))
            && Tally(rows, InStatus(Paid)) == Bucket(|paidRows|, SumCents(paidRows))
            && SumCents(Filtered(eligible, {Pending, Approved}))
               == Tally(rows, InStatus(Pending)).cents + Tally(rows, InStatus(Approved)).cents
  {
    StatusesPartition(rows, Rows);
    StatusesPartition(rows, Money);
    FilteredTwice(rows, {Paid});
    FilteredTwice(rows, {Pending, Approved});
    FilteredSums(rows, ELIGIBLE);
    FilteredSums(rows, {Paid});
    FilteredSums(rows, {Pending, Approved});
    hide Sum, Filtered, SumCents;
  }

  lemma EligibleBuckets(rows: seq<ReportExpense>, found: seq<CategoryBucket>)
    requires CategoryBucketsOf(Filtered(rows, ELIGIBLE), found)
    ensures CategoryBucketsOf(rows, found)
  {
    forall c: Option<CategoryId>
      ensures Tally(Filtered(rows, ELIGIBLE), InCategory(c)) == Tally(rows, InCategory(c))
    {
      EligibleSum(rows, c, Rows);
      EligibleSum(rows, c, Money);
    }
    hide Tally, Filtered;
  }

  lemma SameKeys(a: seq<CategoryBucket>, b: seq<CategoryBucket>, c: Option<CategoryId>)
    requires c in Categories(a) && forall x :: x in a ==> x in b
    ensures c in Categories(b)
  {
    var i :| 0 <= i < |a| && Categories(a)[i] == c;
    assert a[i] in b;
    var j :| 0 <= j < |b| && b[j] == a[i];
    assert Categories(b)[j] == c;
  }

  lemma ArrangedDescribes(rows: seq<ReportExpense>, found: seq<CategoryBucket>)
    requires CategoryBucketsOf(Filtered(rows, ELIGIBLE), found) && Distinct(Categories(found))
    ensures CategoryBucketsOf(rows, Arranged(found)) && Sorted(Arranged(found))
  {
    hide Tally, Filtered, Arranged, Sorted;
    EligibleBuckets(rows, found);
    ArrangedIsSorted(found);
    var arranged := Arranged(found);
    forall b
      ensures b in arranged <==> b in found
    {
      ArrangedHolds(found, b);
    }
    forall c | Tally(rows, InCategory(c)).count > 0
      ensures c in Categories(arranged)
    {
      SameKeys(found, arranged, c);
    }
  }

  // ---------------------------------------------------------------- what the section keeps

  function Measured(bucket: Bucket, measure: Measure): int {
    if measure.Rows? then bucket.count else bucket.cents
  }

  function BucketSum(buckets: seq<CategoryBucket>, measure: Measure): int {
    if buckets == [] then 0
    else BucketSum(buckets[..|buckets| - 1], measure) + Measured(buckets[|buckets| - 1].tally, measure)
  }

  function StatusEntry(section: ExpenseSection, status: Status, measure: Measure): int {
    if status in section.byStatus then Measured(section.byStatus[status], measure) else 0
  }

  lemma {:induction false} BucketSumIsSumAll(rows: seq<ReportExpense>, buckets: seq<CategoryBucket>, measure: Measure)
    requires forall b :: b in buckets ==> b.tally == Tally(rows, InCategory(b.category))
    ensures BucketSum(buckets, measure) == SumAll(rows, Categories(buckets), measure)
  {
    if buckets != [] {
      var init := buckets[..|buckets| - 1];
      BucketSumIsSumAll(rows, init, measure);
      assert Categories(init) == Categories(buckets)[..|buckets| - 1];
      hide Sum;
    }
  }

  lemma SortedKeysAreDistinct(rows: seq<ReportExpense>, buckets: seq<CategoryBucket>)
    requires CategoryBucketsOf(rows, buckets) && Sorted(buckets)
    ensures Distinct(Categories(buckets))
  {
    hide Tally;
    forall i, j | 0 <= i < j < |buckets|
      ensures Categories(buckets)[i] != Categories(buckets)[j]
    {
      assert Before(buckets[i], buckets[j]);
      assert buckets[i] in buckets && buckets[j] in buckets;
    }
  }

  lemma CategoryBucketsAddUp(rows: seq<ReportExpense>, buckets: seq<CategoryBucket>, measure: Measure)
    requires CategoryBucketsOf(rows, buckets) && Sorted(buckets)
    ensures BucketSum(buckets, measure) == Sum(rows, Eligible, measure)
  {
    hide Sum, SumAll, BucketSum, Sorted;
    SortedKeysAreDistinct(rows, buckets);
    BucketSumIsSumAll(rows, buckets, measure);
    forall row | row in rows && Meets(row, Eligible)
      ensures row.category in Categories(buckets)
    {
      CountedExists(rows, row, InCategory(row.category));
      assert Tally(rows, InCategory(row.category)).count > 0;
    }
    CategoriesPartition(rows, Categories(buckets), measure);
  }

  lemma StatusEntryIsSum(rows: seq<ReportExpense>, section: ExpenseSection, status: Status, measure: Measure)
    requires StatusBucketsOf(rows, section.byStatus)
    ensures StatusEntry(section, status, measure) == Sum(rows, InStatus(status), measure)
  {
    hide Sum;
    assert status in section.byStatus <==> Tally(rows, InStatus(status)).count > 0;
    EmptySum(rows, InStatus(status));
  }

  /** No row and no cent is lost or counted twice between the totals, the status and the category buckets. */
  lemma ReportConservesMoney(rows: seq<ReportExpense>, section: ExpenseSection)
    requires Describes(section, rows)
    ensures section.totalAmount == section.paidAmount + section.pendingAmount
    ensures section.totalAmount == BucketSum(section.byCategory, Money)
    ensures section.totalAmount == StatusEntry(section, Pending, Money) + StatusEntry(section, Approved, Money)
                                   + StatusEntry(section, Paid, Money)
    ensures section.paidAmount == StatusEntry(section, Paid, Money)
    ensures BucketSum(section.byCategory, Rows) == |Filtered(rows, ELIGIBLE)|
         == StatusEntry(section, Pending, Rows) + StatusEntry(section, Approved, Rows)
            + StatusEntry(section, Paid, Rows)
  {
    hide Sum, BucketSum, Filtered, SumCents, StatusEntry;
    forall s: Status, measure: Measure
      ensures StatusEntry(section, s, measure) == Sum(rows, InStatus(s), measure)
    {
      StatusEntryIsSum(rows, section, s, measure);
    }
    forall measure: Measure
      ensures BucketSum(section.byCategory, measure) == Sum(rows, Eligible, measure)
      ensures Sum(rows, Eligible, measure)
           == Sum(rows, InStatus(Pending), measure) + Sum(rows, InStatus(Approved), measure)
              + Sum(rows, InStatus(Paid), measure)
    {
      CategoryBucketsAddUp(rows, section.byCategory, measure);
      StatusesPartition(rows, measure);
    }
    TotalsDescribe(rows);
  }

  /** Larger amounts come first; of equal ones, no category first and then in collation order. */
  lemma CategoriesAreOrdered(rows: seq<ReportExpense>, section: ExpenseSection, i: nat, j: nat)
    requires Describes(section, rows) && i < j < |section.byCategory|
    ensures var a, b := section.byCategory[i], section.byCategory[j];
            && a.tally.cents >= b.tally.cents
            && (a.tally.cents == b.tally.cents ==>
                  b.category.Some? && (a.category.Some? ==> a.category.value < b.category.value))
  {
    hide Tally;
    assert Before(section.byCategory[i], section.byCategory[j]);
  }

  /** The amounts asked for, row by row: what counts in the total, as paid, and in a category. */
  lemma ReportCountsRow(rows: seq<ReportExpense>, row: ReportExpense, category: Option<CategoryId>, status: Status)
    ensures Sum(rows + [row], Eligible, Money) - Sum(rows, Eligible, Money)
         == if !row.deleted && row.status != Rejected then row.cents else 0
    ensures Sum(rows + [row], InStatus(status), Money) - Sum(rows, InStatus(status), Money)
         == if !row.deleted && row.status == status then row.cents else 0
    ensures Sum(rows + [row], InCategory(category), Money) - Sum(rows, InCategory(category), Money)
         == if !row.deleted && row.status != Rejected && row.category == category then row.cents else 0
  {
    SumAdded(rows, row, Eligible, Money);
    SumAdded(rows, row, InStatus(status), Money);
    SumAdded(rows, row, InCategory(category), Money);
    hide Sum;
  }

  /** The section is a function of the bag of rows: same rows in any order, same section. */
  lemma ReportIgnoresRowOrder(a: seq<ReportExpense>, b: seq<ReportExpense>, one: ExpenseSection, two: ExpenseSection)
    requires multiset(a) == multiset(b)
    requires Describes(one, a) && Describes(two, b)
    ensures one == two
  {
    hide Sum;
    forall q: Query
      ensures Tally(a, q) == Tally(b, q)
    {
      TallyIgnoresOrder(a, b, q, Rows);
      TallyIgnoresOrder(a, b, q, Money);
    }
    hide Tally;
    assert one.byStatus == two.byStatus;
    SameBuckets(a, b, one.byCategory, two.byCategory);
    SameBuckets(b, a, two.byCategory, one.byCategory);
    SortedIsUnique(one.byCategory, two.byCategory);
  }

  lemma SameBuckets(a: seq<ReportExpense>, b: seq<ReportExpense>, one: seq<CategoryBucket>, two: seq<CategoryBucket>)
    requires forall q :: Tally(a, q) == Tally(b, q)
    requires CategoryBucketsOf(a, one) && CategoryBucketsOf(b, two)
    ensures forall x :: x in one ==> x in two
  {
    forall x | x in one
      ensures x in two
    {
      assert Tally(b, InCategory(x.category)) == Tally(a, InCategory(x.category));
      assert x.category in Categories(two);
      var i :| 0 <= i < |two| && Categories(two)[i] == x.category;
      assert two[i] in two;
    }
  }

  lemma {:induction false} SumOfAmounts(rows: seq<ReportExpense>, query: Query)
    requires forall row :: row in rows ==> row.cents >= 0
    ensures Sum(rows, query, Money) >= 0
  {
    if rows != [] {
      SumOfAmounts(rows[..|rows| - 1], query);
    }
  }

  /** With amounts that are not negative, both paid percentages lie between 0 and 100. */
  lemma PaidPercentagesInRange(rows: seq<ReportExpense>, section: ExpenseSection)
    requires Describes(section, rows)
    requires forall row :: row in rows ==> row.cents >= 0
    ensures 0 <= section.paidAmountPercentage <= WHOLE && 0 <= section.paidCountPercentage <= WHOLE
  {
    hide Sum, Percentage;
    StatusesPartition(rows, Rows);
    StatusesPartition(rows, Money);
    SumOfAmounts(rows, InStatus(Paid));
    SumOfAmounts(rows, InStatus(Pending));
    SumOfAmounts(rows, InStatus(Approved));
    PartIsAtMostWhole(Tally(rows, InStatus(Paid)).cents, Tally(rows, Eligible).cents);
    PartIsAtMostWhole(Tally(rows, InStatus(Paid)).count, Tally(rows, Eligible).count);
  }
}
