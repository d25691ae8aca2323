/** The deterministic part of the Plaid client: formatting a transaction,
    detecting recurring subscriptions among transactions, and normalising a
    merchant name. Amounts are whole cents and dates whole day numbers. */
module PlaidClient {
  import opened Wrappers
  import opened Strings

  /** A transaction as the bank API returns it; None stands for a key that
      is absent. */
  datatype PlaidTransaction = PlaidTransaction(
    transactionId: string,
    date: int,
    name: string,
    merchantName: Option<string>,
    amount: int,
    category: Option<seq<string>>,
    pending: bool)

  /** A transaction in the client's own format. */
  datatype Transaction = Transaction(
    id: string,
    date: int,
    name: string,
    merchantName: string,
    amount: int,
    category: seq<string>,
    pending: bool)

  /** `_format_transaction`. */
  function FormatTransaction(t: PlaidTransaction): (r: Transaction)
    ensures r.merchantName == t.merchantName.GetOr(t.name)
    ensures t.merchantName.None? ==> r.merchantName == r.name
    ensures r.category == t.category.GetOr([])
    ensures r.id == t.transactionId && r.date == t.date && r.name == t.name
    ensures r.amount == t.amount && r.pending == t.pending
  {
    Transaction(t.transactionId, t.date, t.name, t.merchantName.GetOr(t.name), t.amount,
                t.category.GetOr([]), t.pending)
  }

  // ------------------------------------------------------------------ grouping

  predicate Distinct<T(==)>(s: seq<T>) {
    forall i, j | 0 <= i < j < |s| :: s[i] != s[j]
  }

  /** The merchant names of `txns`, each once, in order of first appearance:
      the keys of the grouping dictionary in insertion order. */
  function Merchants(txns: seq<Transaction>): (ms: seq<string>)
    ensures Distinct(ms)
  {
    if txns == [] then []
    else
      var ms := Merchants(txns[..|txns| - 1]);
      var m := txns[|txns| - 1].merchantName;
      if m in ms then ms else ms + [m]
  }

  /** Every transaction's merchant is listed. */
  lemma {:induction false} MerchantsCover(txns: seq<Transaction>)
    ensures forall t | t in txns :: t.merchantName in Merchants(txns)
  {
    if txns != [] {
      var init := txns[..|txns| - 1];
      MerchantsCover(init);
      assert forall t | t in txns :: t in init || t == txns[|txns| - 1];
    }
  }

  /** Every listed merchant has a transaction. */
  lemma {:induction false} MerchantsOccur(txns: seq<Transaction>, m: string)
    requires m in Merchants(txns)
    ensures exists t | t in txns :: t.merchantName == m
  {
    var init := txns[..|txns| - 1];
    if m in Merchants(init) {
      MerchantsOccur(init, m);
      var t :| t in init && t.merchantName == m;
      assert t in txns;
    } else {
      assert txns[|txns| - 1] in txns;
    }
  }

  /** The charges of merchant `m`, in the order they occur in `txns`: the
      list the grouping dictionary holds under key `m`. */
  function ChargesOf(txns: seq<Transaction>, m: string): (cs: seq<Transaction>)
    ensures |cs| <= |txns|
  {
    if txns == [] then []
    else
      var last := txns[|txns| - 1];
      ChargesOf(txns[..|txns| - 1], m) + (if last.merchantName == m then [last] else [])
  }

  /** The group of `m` holds exactly the transactions of merchant `m`. */
  lemma {:induction false} ChargesMembers(txns: seq<Transaction>, m: string)
    ensures forall c | c in ChargesOf(txns, m) :: c in txns && c.merchantName == m
    ensures forall t | t in txns && t.merchantName == m :: t in ChargesOf(txns, m)
  {
    if txns != [] {
      var init, last := txns[..|txns| - 1], txns[|txns| - 1];
      ChargesMembers(init, m);
      assert forall t | t in txns :: t in init || t == last;
      assert forall t | t in init :: t in txns;
    }
  }

  /** The total size of the groups of the merchants `ms`. */
  function GroupSizes(txns: seq<Transaction>, ms: seq<string>): nat {
    if ms == [] then 0
    else GroupSizes(txns, ms[..|ms| - 1]) + |ChargesOf(txns, ms[|ms| - 1])|
  }

  lemma {:induction false} ChargesOfAbsent(txns: seq<Transaction>, m: string)
    requires m !in Merchants(txns)
    ensures ChargesOf(txns, m) == []
  {
    if txns != [] {
      ChargesOfAbsent(txns[..|txns| - 1], m);
    }
  }

  /** Appending a transaction grows the group of its merchant by one and
      leaves every other group as it was. */
  lemma {:induction false} GroupSizesSnoc(txns: seq<Transaction>, t: Transaction, ms: seq<string>)
    requires Distinct(ms)
    ensures GroupSizes(txns + [t], ms) == GroupSizes(txns, ms) + (if t.merchantName in ms then 1 else 0)
  {
    assert (txns + [t])[..|txns|] == txns;
    if ms != [] {
      var init := ms[..|ms| - 1];
      GroupSizesSnoc(txns, t, init);
      assert ms == init + [ms[|ms| - 1]];
      assert t.merchantName in ms <==> t.merchantName in init || t.merchantName == ms[|ms| - 1];
    }
  }

  /** Appending a transaction adds its merchant to the end of the merchant
      list if it is new, and its charge to the end of that merchant's group. */
  lemma GroupingSnoc(txns: seq<Transaction>, t: Transaction)
    ensures Merchants(txns + [t]) ==
              if t.merchantName in Merchants(txns) then Merchants(txns) else Merchants(txns) + [t.merchantName]
    ensures forall m :: ChargesOf(txns + [t], m) == ChargesOf(txns, m) + (if t.merchantName == m then [t] else [])
  {
    assert (txns + [t])[..|txns|] == txns;
  }

  /** Every transaction lands in exactly one group: the group sizes add up
      to the number of transactions (and each group holds only its own
      merchant's charges, by the contract of ChargesOf). */
  lemma {:induction false} GroupingPartitions(txns: seq<Transaction>)
    ensures GroupSizes(txns, Merchants(txns)) == |txns|
  {
    if txns != [] {
      var init, t := txns[..|txns| - 1], txns[|txns| - 1];
      assert txns == init + [t];
      var ms := Merchants(init);
      GroupingPartitions(init);
      GroupSizesSnoc(init, t, ms);
      if t.merchantName !in ms {
        ChargesOfAbsent(init, t.merchantName);
        assert (ms + [t.merchantName])[..|ms|] == ms;
      }
    }
  }

  // ------------------------------------------------------------ sorting by date

  predicate SortedByDate(s: seq<Transaction>) {
    forall i, j | 0 <= i < j < |s| :: s[i].date <= s[j].date
  }

  /** Inserts `t` after every element dated no later than it. */
  function InsertByDate(t: Transaction, s: seq<Transaction>): (r: seq<Transaction>)
    requires SortedByDate(s)
    ensures SortedByDate(r) && multiset(r) == multiset(s) + multiset{t}
  {
    if s == [] then [t]
    else if t.date < s[0].date then [t] + s
    else
      var rest := InsertByDate(t, s[1..]);
      assert s == [s[0]] + s[1..];
      EarliestFirst(s[0], s[1..], t, rest);
      [s[0]] + rest
  }

  lemma EarliestFirst(first: Transaction, tail: seq<Transaction>, t: Transaction, rest: seq<Transaction>)
    requires SortedByDate([first] + tail) && first.date <= t.date
    requires SortedByDate(rest) && multiset(rest) == multiset(tail) + multiset{t}
    ensures SortedByDate([first] + rest)
  {
    forall x | x in rest ensures first.date <= x.date {
      assert x in multiset(rest);
      if x != t {
        assert (multiset(tail) + multiset{t})[x] == multiset(tail)[x];
        assert x in multiset(tail);
        var k :| 0 <= k < |tail| && tail[k] == x;
        var whole := [first] + tail;
        assert whole[0] == first && whole[k + 1] == x;
        assert whole[0].date <= whole[k + 1].date;
      }
    }
    var r := [first] + rest;
    forall i, j | 0 <= i < j < |r| ensures r[i].date <= r[j].date {
      if i > 0 {
        assert r[i] == rest[i - 1] && r[j] == rest[j - 1];
      } else {
        assert r[j] in rest;
      }
    }
  }

  /** `charges.sort(key=date)`: a stable sort by date, as a value. */
  function SortByDate(cs: seq<Transaction>): (r: seq<Transaction>)
    ensures SortedByDate(r) && multiset(r) == multiset(cs)
  {
    if cs == [] then []
    else
      assert cs == cs[..|cs| - 1] + [cs[|cs| - 1]];
      InsertByDate(cs[|cs| - 1], SortByDate(cs[..|cs| - 1]))
  }

  // ------------------------------------------------------ amounts and intervals

  function Amounts(cs: seq<Transaction>): (r: seq<int>)
    ensures |r| == |cs| && forall i | 0 <= i < |cs| :: r[i] == cs[i].amount
  {
    seq(|cs|, i requires 0 <= i < |cs| => cs[i].amount)
  }

  function Dates(cs: seq<Transaction>): (r: seq<int>)
    ensures |r| == |cs| && forall i | 0 <= i < |cs| :: r[i] == cs[i].date
  {
    seq(|cs|, i requires 0 <= i < |cs| => cs[i].date)
  }

  /** The day counts between consecutive dates. */
  function Gaps(ds: seq<int>): (r: seq<int>)
    ensures |r| == if ds == [] then 0 else |ds| - 1
    ensures forall i | 0 <= i < |r| :: r[i] == ds[i + 1] - ds[i]
  {
    seq(if ds == [] then 0 else |ds| - 1, i requires 0 <= i < |ds| - 1 => ds[i + 1] - ds[i])
  }

  function Sum(xs: seq<int>): int {
    if xs == [] then 0 else Sum(xs[..|xs| - 1]) + xs[|xs| - 1]
  }

  /** The intervals add up to the span from the first date to the last. */
  lemma {:induction false} GapsTelescope(ds: seq<int>)
    requires ds != []
    ensures Sum(Gaps(ds)) == ds[|ds| - 1] - ds[0]
  {
    if |ds| > 1 {
      var init := ds[..|ds| - 1];
      GapsTelescope(init);
      assert Gaps(ds)[..|Gaps(ds)| - 1] == Gaps(init);
    }
  }

  function MinDate(cs: seq<Transaction>): (d: int)
    requires cs != []
    ensures forall c | c in cs :: d <= c.date
    ensures exists c | c in cs :: c.date == d
  {
    if |cs| == 1 then cs[0].date
    else
      var init := cs[..|cs| - 1];
      var d := MinDate(init);
      assert forall c | c in cs :: c in init || c == cs[|cs| - 1];
      assert forall c | c in init :: c in cs;
      if cs[|cs| - 1].date < d then cs[|cs| - 1].date else d
  }

  function MaxDate(cs: seq<Transaction>): (d: int)
    requires cs != []
    ensures forall c | c in cs :: c.date <= d
    ensures exists c | c in cs :: c.date == d
  {
    if |cs| == 1 then cs[0].date
    else
      var init := cs[..|cs| - 1];
      var d := MaxDate(init);
      assert forall c | c in cs :: c in init || c == cs[|cs| - 1];
      assert forall c | c in init :: c in cs;
      if d < cs[|cs| - 1].date then cs[|cs| - 1].date else d
  }

  /** A date-sorted rearrangement starts at the earliest date and ends at
      the latest. */
  lemma SortedEnds(cs: seq<Transaction>, sorted: seq<Transaction>)
    requires cs != [] && SortedByDate(sorted) && multiset(sorted) == multiset(cs)
    ensures |sorted| == |cs|
    ensures sorted[0].date == MinDate(cs) && sorted[|sorted| - 1].date == MaxDate(cs)
  {
    SortedFirst(cs, sorted);
    SortedLast(cs, sorted);
  }

  /** A rearrangement has the same length and the same elements. */
  lemma Rearranged(cs: seq<Transaction>, other: seq<Transaction>, c: Transaction)
    requires multiset(other) == multiset(cs)
    ensures |other| == |cs| && (c in other <==> c in cs)
  {
    assert |multiset(other)| == |multiset(cs)|;
    assert c in other <==> c in multiset(other);
  }

  lemma SortedFirst(cs: seq<Transaction>, sorted: seq<Transaction>)
    requires cs != [] && SortedByDate(sorted) && multiset(sorted) == multiset(cs)
    ensures |sorted| == |cs| && sorted[0].date == MinDate(cs)
  {
    var d := MinDate(cs);
    assert exists c | c in cs :: c.date == d;
    var lo :| lo in cs && lo.date == d;
    Rearranged(cs, sorted, lo);
    Rearranged(cs, sorted, sorted[0]);
    var i :| 0 <= i < |sorted| && sorted[i] == lo;
    assert sorted[0].date <= lo.date by {
      if i > 0 {
        assert sorted[0].date <= sorted[i].date;
      }
    }
  }

  lemma SortedLast(cs: seq<Transaction>, sorted: seq<Transaction>)
    requires cs != [] && SortedByDate(sorted) && multiset(sorted) == multiset(cs)
    ensures |sorted| == |cs| && sorted[|sorted| - 1].date == MaxDate(cs)
  {
    var d := MaxDate(cs);
    assert exists c | c in cs :: c.date == d;
    var hi :| hi in cs && hi.date == d;
    Rearranged(cs, sorted, hi);
    var last := |sorted| - 1;
    Rearranged(cs, sorted, sorted[last]);
    var j :| 0 <= j < |sorted| && sorted[j] == hi;
    assert hi.date <= sorted[last].date by {
      if j < last {
        assert sorted[j].date <= sorted[last].date;
      }
    }
  }

  predicate SameAmount(cs: seq<Transaction>) {
    forall i | 0 <= i < |cs| :: cs[i].amount == cs[0].amount
  }

  /** `len(set(amounts)) == 1`: exactly the charges all having one amount. */
  lemma SingleAmount(cs: seq<Transaction>)
    requires cs != []
    ensures |set a | a in Amounts(cs)| == 1 <==> SameAmount(cs)
  {
    var amounts := set a | a in Amounts(cs);
    var a0 := cs[0].amount;
    assert Amounts(cs)[0] == a0;
    if SameAmount(cs) {
      assert amounts == {a0};
    } else {
      var i :| 0 <= i < |cs| && cs[i].amount != a0;
      assert Amounts(cs)[i] == cs[i].amount;
      assert {a0, cs[i].amount} <= amounts;
      assert |{a0, cs[i].amount}| == 2;
      assert |amounts - {a0}| == |amounts| - 1;
      assert cs[i].amount in amounts - {a0};
    }
  }

  /** Rearranging charges keeps whether they all have one amount, and
      which. */
  lemma SameAmountRearranged(cs: seq<Transaction>, other: seq<Transaction>)
    requires cs != [] && multiset(other) == multiset(cs) && SameAmount(cs)
    ensures other != [] && SameAmount(other) && other[0].amount == cs[0].amount
  {
    assert cs[0] in multiset(other);
    forall i | 0 <= i < |other| ensures other[i].amount == cs[0].amount {
      assert other[i] in multiset(cs);
      var k :| 0 <= k < |cs| && cs[k] == other[i];
    }
  }

  // ------------------------------------------------------------------ detection

  const ACTIVE: string := "active"

  datatype DetectedSubscription = DetectedSubscription(
    merchantName: string,
    normalizedName: string,
    monthlyPrice: int,
    lastChargeDate: int,
    status: string,
    logoUrl: Option<string>,
    cancellationUrl: Option<string>)

  /** What makes a merchant's charges a subscription: at least two, one
      amount, and an average interval of 25 to 35 days, that is the span
      from the first charge to the last between 25 and 35 days per
      interval. */
  predicate Recurring(cs: seq<Transaction>) {
    && |cs| >= 2
    && SameAmount(cs)
    && 25 * (|cs| - 1) <= MaxDate(cs) - MinDate(cs) <= 35 * (|cs| - 1)
  }

  /** The record reported for a recurring merchant. */
  function Report(m: string, cs: seq<Transaction>): DetectedSubscription
    requires cs != []
  {
    DetectedSubscription(m, NormalizeMerchantName(m), cs[0].amount, MaxDate(cs), ACTIVE, None, None)
  }

  /** The body of the second loop for merchant `m`: the record it appends,
      if any. */
  function Entry(m: string, charges: seq<Transaction>): Option<DetectedSubscription> {
    if |charges| < 2 then None
    else
      var sorted := SortByDate(charges);
      var amounts := Amounts(sorted);
      if |set a | a in amounts| == 1 && |charges| >= 2 then
        var dates := Dates(sorted);
        var intervals := Gaps(dates);
        if 25 * |intervals| <= Sum(intervals) <= 35 * |intervals| then
          Some(DetectedSubscription(m, NormalizeMerchantName(m), amounts[0], sorted[|sorted| - 1].date,
                                    ACTIVE, None, None))
        else None
      else None
  }

  /** A merchant is reported exactly when its charges recur, and then with
      the common amount as monthly price and the latest charge date. */
  lemma EntryMeaning(m: string, cs: seq<Transaction>)
    ensures Entry(m, cs).Some? <==> Recurring(cs)
    ensures Entry(m, cs).Some? ==> Entry(m, cs).value == Report(m, cs)
  {
    if |cs| >= 2 {
      var sorted := SortByDate(cs);
      var intervals := Gaps(Dates(sorted));
      SortedSummary(cs, sorted);
      assert (|set a | a in Amounts(sorted)| == 1) == SameAmount(cs);
      assert |intervals| == |cs| - 1 && Sum(intervals) == MaxDate(cs) - MinDate(cs);
    }
  }

  /** What the second loop reads off the sorted charges: whether they have
      one amount and which, the latest date, and the intervals' number and
      total. */
  lemma SortedSummary(cs: seq<Transaction>, sorted: seq<Transaction>)
    requires |cs| >= 2 && sorted == SortByDate(cs)
    ensures |sorted| == |cs| && sorted[|sorted| - 1].date == MaxDate(cs)
    ensures |set a | a in Amounts(sorted)| == 1 <==> SameAmount(cs)
    ensures SameAmount(cs) ==> Amounts(sorted)[0] == cs[0].amount
    ensures |Gaps(Dates(sorted))| == |cs| - 1
    ensures Sum(Gaps(Dates(sorted))) == MaxDate(cs) - MinDate(cs)
  {
    SortedEnds(cs, sorted);
    SingleAmount(sorted);
    if SameAmount(cs) {
      SameAmountRearranged(cs, sorted);
    }
    if SameAmount(sorted) {
      SameAmountRearranged(sorted, cs);
    }
    GapsTelescope(Dates(sorted));
  }

  /** The records appended for the merchants `ms`, in order. */
  function Collect(txns: seq<Transaction>, ms: seq<string>): seq<DetectedSubscription> {
    if ms == [] then []
    else
      var m := ms[|ms| - 1];
      var e := Entry(m, ChargesOf(txns, m));
      Collect(txns, ms[..|ms| - 1]) + (if e.Some? then [e.value] else [])
  }

  /** `detect_subscriptions` as a value. */
  function Detected(txns: seq<Transaction>): seq<DetectedSubscription> {
    Collect(txns, Merchants(txns))
  }

  /** The merchants among `ms` whose charges recur, in the order of `ms`. */
  function Qualifying(txns: seq<Transaction>, ms: seq<string>): seq<string> {
    if ms == [] then []
    else
      var m := ms[|ms| - 1];
      Qualifying(txns, ms[..|ms| - 1]) + (if Recurring(ChargesOf(txns, m)) then [m] else [])
  }

  /** The qualifying merchants are exactly the listed merchants whose
      charges recur, each listed once when `ms` lists it once. */
  lemma QualifyingMeaning(txns: seq<Transaction>, ms: seq<string>)
    ensures var qs := Qualifying(txns, ms);
            && |qs| <= |ms|
            && (forall m :: m in qs <==> m in ms && Recurring(ChargesOf(txns, m)))
            && (Distinct(ms) ==> Distinct(qs))
  {
    forall m ensures m in Qualifying(txns, ms) <==> m in ms && Recurring(ChargesOf(txns, m)) {
      QualifyingMember(txns, ms, m);
    }
    QualifyingDistinct(txns, ms);
  }

  lemma {:induction false} QualifyingMember(txns: seq<Transaction>, ms: seq<string>, m: string)
    ensures m in Qualifying(txns, ms) <==> m in ms && Recurring(ChargesOf(txns, m))
  {
    if ms != [] {
      var last, init := ms[|ms| - 1], ms[..|ms| - 1];
      var recurs := Recurring(ChargesOf(txns, last));
      QualifyingMember(txns, init, m);
      assert m in Qualifying(txns, ms) <==> m in Qualifying(txns, init) || (recurs && m == last) by {
        QualifyingLast(txns, ms);
      }
      assert m in ms <==> m in init || m == last by {
        if m in ms {
          var k :| 0 <= k < |ms| && ms[k] == m;
          if k < |init| { assert init[k] == m; }
        }
      }
    }
  }

  lemma {:induction false} QualifyingDistinct(txns: seq<Transaction>, ms: seq<string>)
    ensures |Qualifying(txns, ms)| <= |ms|
    ensures Distinct(ms) ==> Distinct(Qualifying(txns, ms))
  {
    if ms != [] {
      var last, init := ms[|ms| - 1], ms[..|ms| - 1];
      var q0, q := Qualifying(txns, init), Qualifying(txns, ms);
      QualifyingDistinct(txns, init);
      assert q == q0 || q == q0 + [last] by { QualifyingLast(txns, ms); }
      assert last in q0 ==> last in init by { QualifyingMember(txns, init, last); }
      if Distinct(ms) && q != q0 {
        assert last !in init by {
          forall k | 0 <= k < |init| ensures init[k] != last {
            assert init[k] == ms[k];
          }
        }
        DistinctSnoc(q0, last);
      }
    }
  }

  lemma DistinctSnoc<T>(s: seq<T>, x: T)
    requires Distinct(s) && x !in s
    ensures Distinct(s + [x])
  {
  }

  lemma {:induction false} CollectMeaning(txns: seq<Transaction>, ms: seq<string>)
    ensures ReportsMatch(txns, Collect(txns, ms), Qualifying(txns, ms))
  {
    if ms != [] {
      var m, init := ms[|ms| - 1], ms[..|ms| - 1];
      var cs := ChargesOf(txns, m);
      var e := Entry(m, cs);
      var recurs := Recurring(cs);
      CollectMeaning(txns, init);
      assert e.Some? <==> recurs by { EntryMeaning(m, cs); }
      assert e.Some? ==> cs != [] && e.value == Report(m, cs) by { EntryMeaning(m, cs); }
      ReportsMatchSnoc(txns, Collect(txns, init), Qualifying(txns, init), m, e, recurs);
      CollectLast(txns, ms);
      QualifyingLast(txns, ms);
    }
  }

  /** The i-th record reports the i-th qualifying merchant. */
  predicate ReportsMatch(txns: seq<Transaction>, d: seq<DetectedSubscription>, q: seq<string>) {
    && |d| == |q|
    && forall i | 0 <= i < |d| :: ChargesOf(txns, q[i]) != [] && d[i] == Report(q[i], ChargesOf(txns, q[i]))
  }

  lemma ReportsMatchSnoc(txns: seq<Transaction>, d: seq<DetectedSubscription>, q: seq<string>,
                         m: string, e: Option<DetectedSubscription>, recurs: bool)
    requires ReportsMatch(txns, d, q)
    requires e.Some? <==> recurs
    requires e.Some? ==> ChargesOf(txns, m) != [] && e.value == Report(m, ChargesOf(txns, m))
    ensures ReportsMatch(txns, d + (if e.Some? then [e.value] else []), q + (if recurs then [m] else []))
  {
  }

  lemma CollectLast(txns: seq<Transaction>, ms: seq<string>)
    requires ms != []
    ensures var m := ms[|ms| - 1]; var e := Entry(m, ChargesOf(txns, m));
            Collect(txns, ms) == Collect(txns, ms[..|ms| - 1]) + (if e.Some? then [e.value] else [])
  {
  }

  lemma QualifyingLast(txns: seq<Transaction>, ms: seq<string>)
    requires ms != []
    ensures var m := ms[|ms| - 1];
            Qualifying(txns, ms) == Qualifying(txns, ms[..|ms| - 1]) + (if Recurring(ChargesOf(txns, m)) then [m] else [])
  {
  }

  /** What detection reports: one record per merchant whose charges recur,
      in order of the merchant's first transaction, each with the merchant's
      common amount, latest charge date and status "active". A merchant with
      fewer than two charges, differing amounts or an average interval
      outside 25 to 35 days is not reported. */
  lemma DetectionReports(txns: seq<Transaction>)
    ensures var d, q := Detected(txns), Qualifying(txns, Merchants(txns));
            && |d| == |q| && Distinct(q)
            && (forall m :: m in q <==> (exists t | t in txns :: t.merchantName == m) && Recurring(ChargesOf(txns, m)))
            && forall i | 0 <= i < |d| ::
                 && ChargesOf(txns, q[i]) != []
                 && d[i] == Report(q[i], ChargesOf(txns, q[i]))
                 && d[i].merchantName == q[i]
                 && d[i].status == ACTIVE && d[i].logoUrl == None && d[i].cancellationUrl == None
                 && forall c | c in ChargesOf(txns, q[i]) :: d[i].monthlyPrice == c.amount && c.date <= d[i].lastChargeDate
  {
    var q := Qualifying(txns, Merchants(txns));
    CollectMeaning(txns, Merchants(txns));
    QualifyingMeaning(txns, Merchants(txns));
    forall m ensures m in q <==> (exists t | t in txns :: t.merchantName == m) && Recurring(ChargesOf(txns, m)) {
      MerchantsCover(txns);
      if m in Merchants(txns) {
        MerchantsOccur(txns, m);
      }
    }
    forall i, c | 0 <= i < |q| && c in ChargesOf(txns, q[i])
      ensures c.amount == ChargesOf(txns, q[i])[0].amount
    {
      var cs := ChargesOf(txns, q[i]);
      var k :| 0 <= k < |cs| && cs[k] == c;
    }
  }
  // -------------------------------------------------------------- ordering

  /** The position of the first transaction of merchant `m`, or `|txns|`
      when there is none. */
  function FirstIndex(txns: seq<Transaction>, m: string): (k: nat)
    ensures k <= |txns|
  {
    if txns == [] then 0
    else if txns[0].merchantName == m then 0
    else 1 + FirstIndex(txns[1..], m)
  }

  /** No transaction before `FirstIndex(txns, m)` is of merchant `m`, and
      the one there, if any, is. */
  lemma {:induction false} FirstIndexMeaning(txns: seq<Transaction>, m: string)
    ensures var k := FirstIndex(txns, m);
            && (forall l | 0 <= l < k :: txns[l].merchantName != m)
            && (k < |txns| ==> txns[k].merchantName == m)
  {
    if txns != [] && txns[0].merchantName != m {
      FirstIndexMeaning(txns[1..], m);
      assert forall l | 1 <= l <= |txns| - 1 :: txns[1..][l - 1] == txns[l];
    }
  }

  /** The merchants `ms` are listed in order of their first transaction. */
  predicate InFirstAppearanceOrder(txns: seq<Transaction>, ms: seq<string>) {
    forall i, j | 0 <= i < j < |ms| :: FirstIndex(txns, ms[i]) < FirstIndex(txns, ms[j])
  }

  /** Appending a transaction keeps the first position of every merchant
      that already occurs, and makes the new one's `|txns|`. */
  lemma FirstIndexSnoc(txns: seq<Transaction>, t: Transaction, m: string)
    ensures FirstIndex(txns + [t], m) ==
            if FirstIndex(txns, m) < |txns| then FirstIndex(txns, m)
            else if t.merchantName == m then |txns| else |txns| + 1
  {
    var a, k := FirstIndex(txns, m), FirstIndex(txns + [t], m);
    FirstIndexMeaning(txns, m);
    FirstIndexMeaning(txns + [t], m);
    assert forall l | 0 <= l < |txns| :: (txns + [t])[l] == txns[l];
    if a < |txns| {
      assert (txns + [t])[a].merchantName == m;
    } else if t.merchantName == m {
      assert (txns + [t])[|txns|].merchantName == m;
    }
  }

  /** The keys of the grouping dictionary come in order of first
      appearance, and each has a transaction. */
  lemma {:induction false} MerchantsInOrder(txns: seq<Transaction>)
    ensures InFirstAppearanceOrder(txns, Merchants(txns))
    ensures forall x | x in Merchants(txns) :: FirstIndex(txns, x) < |txns|
  {
    if txns != [] {
      var init, t := txns[..|txns| - 1], txns[|txns| - 1];
      var ms0, m := Merchants(init), t.merchantName;
      MerchantsInOrder(init);
      assert txns == init + [t];
      forall x | x in ms0 ensures FirstIndex(txns, x) == FirstIndex(init, x) {
        FirstIndexSnoc(init, t, x);
      }
      if m !in ms0 {
        assert FirstIndex(txns, m) == |init| by {
          FirstIndexSnoc(init, t, m);
          MerchantListed(init, m);
        }
        NewMerchantLast(txns, ms0 + [m], |init|);
      }
    }
  }

  /** A merchant is a key exactly when it has a transaction. */
  lemma MerchantListed(txns: seq<Transaction>, x: string)
    ensures x in Merchants(txns) <==> FirstIndex(txns, x) < |txns|
  {
    MerchantsCoverAt(txns);
    FirstIndexMeaning(txns, x);
    if x in Merchants(txns) {
      MerchantsOccur(txns, x);
      var t :| t in txns && t.merchantName == x;
      var k :| 0 <= k < |txns| && txns[k] == t;
    }
  }

  lemma MerchantsCoverAt(txns: seq<Transaction>)
    ensures forall k | 0 <= k < |txns| :: txns[k].merchantName in Merchants(txns)
  {
    MerchantsCover(txns);
    forall k | 0 <= k < |txns| ensures txns[k].merchantName in Merchants(txns) {
      assert txns[k] in txns;
    }
  }

  /** A list in order whose last merchant's first transaction comes after
      all the others' is in order. */
  lemma NewMerchantLast(txns: seq<Transaction>, ms: seq<string>, n: nat)
    requires ms != [] && InFirstAppearanceOrder(txns, ms[..|ms| - 1])
    requires forall x | x in ms[..|ms| - 1] :: FirstIndex(txns, x) < n
    requires FirstIndex(txns, ms[|ms| - 1]) == n
    ensures InFirstAppearanceOrder(txns, ms)
  {
    var init := ms[..|ms| - 1];
    forall i, j | 0 <= i < j < |ms| ensures FirstIndex(txns, ms[i]) < FirstIndex(txns, ms[j]) {
      assert ms[i] == init[i];
      if j < |init| {
        assert ms[j] == init[j];
      }
    }
  }

  /** Keeping only the recurring merchants keeps their order. */
  lemma {:induction false} QualifyingKeepsOrder(txns: seq<Transaction>, ms: seq<string>)
    requires InFirstAppearanceOrder(txns, ms)
    ensures InFirstAppearanceOrder(txns, Qualifying(txns, ms))
  {
    if ms != [] {
      var last, init := ms[|ms| - 1], ms[..|ms| - 1];
      var q0, q := Qualifying(txns, init), Qualifying(txns, ms);
      assert forall i | 0 <= i < |init| :: init[i] == ms[i];
      QualifyingKeepsOrder(txns, init);
      assert q == q0 || q == q0 + [last] by { QualifyingLast(txns, ms); }
      if q != q0 {
        forall i | 0 <= i < |q0| ensures FirstIndex(txns, q0[i]) < FirstIndex(txns, last) {
          assert q0[i] in init by { QualifyingMember(txns, init, q0[i]); }
          var k :| 0 <= k < |init| && init[k] == q0[i];
          assert ms[k] == q0[i];
        }
      }
    }
  }

  /** The records come in order of each merchant's first transaction. */
  lemma DetectionOrder(txns: seq<Transaction>)
    ensures var d := Detected(txns);
            forall i, j | 0 <= i < j < |d| ::
              FirstIndex(txns, d[i].merchantName) < FirstIndex(txns, d[j].merchantName)
  {
    var q := Qualifying(txns, Merchants(txns));
    MerchantsInOrder(txns);
    QualifyingKeepsOrder(txns, Merchants(txns));
    DetectionReports(txns);
  }


  /** The grouping dictionary and its key order after the transactions
      `txns`: each merchant's charges under its name, keys in order of first
      appearance. */
  ghost predicate Grouped(merchantCharges: map<string, seq<Transaction>>, merchants: seq<string>, txns: seq<Transaction>) {
    && merchants == Merchants(txns)
    && (forall m :: m in merchantCharges <==> m in merchants)
    && forall m | m in merchants :: merchantCharges[m] == ChargesOf(txns, m)
  }

  /** One step of the grouping loop keeps the dictionary grouped. */
  lemma GroupedSnoc(merchantCharges: map<string, seq<Transaction>>, merchants: seq<string>,
                    txns: seq<Transaction>, t: Transaction)
    requires Grouped(merchantCharges, merchants, txns)
    ensures var m := t.merchantName;
            var charges := if m in merchantCharges then merchantCharges else merchantCharges[m := []];
            Grouped(charges[m := charges[m] + [t]],
                    if m in merchantCharges then merchants else merchants + [m],
                    txns + [t])
  {
    var m := t.merchantName;
    var charges := if m in merchantCharges then merchantCharges else merchantCharges[m := []];
    var grouped := charges[m := charges[m] + [t]];
    var merchants' := if m in merchantCharges then merchants else merchants + [m];
    GroupingSnoc(txns, t);
    assert charges[m] == ChargesOf(txns, m) by {
      if m !in merchantCharges {
        ChargesOfAbsent(txns, m);
      }
    }
    forall k | k in merchants'
      ensures grouped[k] == ChargesOf(txns + [t], k)
    {
      assert ChargesOf(txns + [t], k) == ChargesOf(txns, k) + (if m == k then [t] else []);
    }
  }

  /** The first loop of `detect_subscriptions`: the dictionary from each
      merchant to its charges, and its keys in insertion order. */
  method GroupByMerchant(transactions: seq<Transaction>)
    returns (merchantCharges: map<string, seq<Transaction>>, merchants: seq<string>)
    ensures Grouped(merchantCharges, merchants, transactions)
  {
    merchantCharges := map[];
    merchants := [];
    for i := 0 to |transactions|
      invariant Grouped(merchantCharges, merchants, transactions[..i])
    {
      var txn := transactions[i];
      assert transactions[..i + 1] == transactions[..i] + [txn];
      GroupedSnoc(merchantCharges, merchants, transactions[..i], txn);
      var merchant := txn.merchantName;
      if merchant !in merchantCharges {
        merchantCharges := merchantCharges[merchant := []];
        merchants := merchants + [merchant];
      }
      merchantCharges := merchantCharges[merchant := merchantCharges[merchant] + [txn]];
    }
    assert transactions[..|transactions|] == transactions;
  }

  /** `detect_subscriptions`: groups the transactions by merchant, then
      appends one record for each merchant whose charges recur. */
  method DetectSubscriptions(transactions: seq<Transaction>) returns (detected: seq<DetectedSubscription>)
    ensures detected == Detected(transactions)
  {
    var merchantCharges, merchants := GroupByMerchant(transactions);

    detected := [];
    for j := 0 to |merchants|
      invariant detected == Collect(transactions, merchants[..j])
    {
      var merchant := merchants[j];
      var charges := merchantCharges[merchant];
      ghost var entry := Entry(merchant, charges);
      assert merchants[..j + 1][..j] == merchants[..j];
      assert Collect(transactions, merchants[..j + 1])
          == Collect(transactions, merchants[..j]) + (if entry.Some? then [entry.value] else []);
      if |charges| < 2 {
        continue;
      }
      var sorted := SortByDate(charges);
      var amounts := Amounts(sorted);
      if |set a | a in amounts| == 1 && |charges| >= 2 {
        var dates := Dates(sorted);
        var intervals := Gaps(dates);
        if 25 * |intervals| <= Sum(intervals) <= 35 * |intervals| {
          detected := detected + [DetectedSubscription(merchant, NormalizeMerchantName(merchant), amounts[0],
                                                       sorted[|sorted| - 1].date, ACTIVE, None, None)];
        }
      }
    }
    assert merchants[..|merchants|] == merchants;
  }

  // -------------------------------------------------------- name normalisation

  /** The first two steps of `_normalize_merchant_name`: strip, then
      delete "*", ".COM" and ".com", in that order. */
  function CleanedName(merchantName: string): string {
    Replace(Replace(Replace(Strip(merchantName), "*", ""), ".COM", ""), ".com", "")
  }

  /** `_normalize_merchant_name`: the cleaned name with its whitespace
      collapsed to single spaces, title-cased. */
  function NormalizeMerchantName(merchantName: string): string {
    Title(Join(" ", Words(CleanedName(merchantName))))
  }

  /** A normalised name holds no '*', has no whitespace at either end and
      no run of more than one space. */
  lemma NormalizedShape(merchantName: string)
    ensures '*' !in NormalizeMerchantName(merchantName)
    ensures SingleSpaced(NormalizeMerchantName(merchantName))
  {
    var s0 := Replace(Strip(merchantName), "*", "");
    ReplaceDeletes(Strip(merchantName), '*');
    var s1 := Replace(s0, ".COM", "");
    ReplaceAvoids(s0, ".COM", "", '*');
    var s2 := Replace(s1, ".com", "");
    ReplaceAvoids(s1, ".com", "", '*');
    WordsAvoid(s2, '*');
    JoinAvoids(Words(s2), '*');
    JoinSingleSpaced(Words(s2));
    TitleKeepsShape(Join(" ", Words(s2)), '*');
  }

  /** A trailing ".COM" is deleted from a name with nothing else to clean. */
  lemma CleanDotCom(w: string, s: string)
    requires w != [] && !IsSpace(w[0]) && '*' !in w && '.' !in w && s == w + ".COM"
    ensures CleanedName(s) == w
  {
    assert s[|s| - 1] == 'M' && s[0] == w[0];
    assert Strip(s) == s;
    assert '*' !in s by { assert forall c | c in s :: c in w || c in ".COM"; }
    ReplaceAbsent(s, "*", "");
    assert w + ".COM" + "" == s;
    ReplaceAt(w, ".COM", "", "");
    assert w + "" + Replace("", ".COM", "") == w;
    ReplaceAbsent(w, ".com", "");
  }

  /** A '*' between two parts is deleted. */
  lemma CleanStar(a: string, b: string, s: string)
    requires a != [] && b != [] && !IsSpace(a[0]) && !IsSpace(b[|b| - 1])
    requires '*' !in a && '*' !in b && '.' !in a && '.' !in b && s == a + "*" + b
    ensures CleanedName(s) == a + b
  {
    assert s[0] == a[0] && s[|s| - 1] == b[|b| - 1];
    StripTrimmed(s);
    DeleteStar(a, b, s);
    assert '.' !in a + b by { assert forall c | c in a + b :: c in a || c in b; }
    ReplaceAbsent(a + b, ".COM", "");
    ReplaceAbsent(a + b, ".com", "");
  }

  lemma DeleteStar(a: string, b: string, s: string)
    requires '*' !in a && '*' !in b && s == a + "*" + b
    ensures Replace(s, "*", "") == a + b
  {
    calc {
      Replace(s, "*", "");
      { ReplaceAt(a, "*", "", b); }
      a + "" + Replace(b, "*", "");
      { ReplaceAbsent(b, "*", ""); }
      a + "" + b;
      a + b;
    }
  }

  /** Three words separated by single spaces split and join back. */
  lemma ThreeWords(a: string, b: string, c: string, s: string)
    requires IsWord(a) && IsWord(b) && IsWord(c) && s == a + " " + b + " " + c
    ensures Join(" ", Words(s)) == s
  {
    AssociateThree(a, b, c, s);
    WordsOfThree(a, b, c);
    JoinThree(a, b, c);
  }

  lemma AssociateThree(a: string, b: string, c: string, s: string)
    requires s == a + " " + b + " " + c
    ensures s == a + (" " + (b + (" " + c)))
  {
  }

  lemma WordsOfThree(a: string, b: string, c: string)
    requires IsWord(a) && IsWord(b) && IsWord(c)
    ensures Words(a + (" " + (b + (" " + c)))) == [a, b, c]
  {
    var r2 := " " + c;
    var r1 := " " + (b + r2);
    WordsCons(a, r1);
    assert r1[1..] == b + r2;
    WordsCons(b, r2);
    assert r2[1..] == c + "" && c + "" == c;
    WordsCons(c, "");
  }

  lemma JoinThree(a: string, b: string, c: string)
    ensures Join(" ", [a, b, c]) == a + " " + b + " " + c
  {
    var ws := [a, b, c];
    assert ws[1..] == [b, c] && [b, c][1..] == [c];
    assert Join(" ", [c]) == c;
    assert Join(" ", [b, c]) == b + " " + c;
    assert Join(" ", ws) == a + " " + (b + " " + c);
  }

  /** "NETFLIX.COM" becomes "Netflix". */
  lemma NormalizeNetflix()
    ensures NormalizeMerchantName("NETFLIX.COM") == "Netflix"
  {
    NetflixSteps("NETFLIX", "NETFLIX.COM");
  }

  lemma NetflixSteps(w: string, s: string)
    requires w == "NETFLIX" && s == w + ".COM"
    ensures NormalizeMerchantName(s) == "Netflix"
  {
    calc {
      NormalizeMerchantName(s);
      Title(Join(" ", Words(CleanedName(s))));
      { CleanDotCom(w, s); }
      Title(Join(" ", Words(w)));
      { NetflixWords(w); }
      Title(w);
      { NetflixTitled(w); }
      "Netflix";
    }
  }

  lemma NetflixWords(w: string)
    requires w == "NETFLIX"
    ensures Words(w) == [w]
  {
    assert IsWord(w);
    WordsCons(w, "");
    assert w + "" == w;
  }

  lemma NetflixTitled(w: string)
    requires w == "NETFLIX"
    ensures Title(w) == "Netflix"
  {
    var t := Title(w);
    assert t[0] == 'N' && t[1] == 'e' && t[2] == 't' && t[3] == 'f' && t[4] == 'l' && t[5] == 'i' && t[6] == 'x';
  }

  /** "Adobe* Creative Cloud" becomes "Adobe Creative Cloud". */
  lemma NormalizeAdobe()
    ensures NormalizeMerchantName("Adobe* Creative Cloud") == "Adobe Creative Cloud"
  {
    AdobeSteps("Adobe", " Creative Cloud", "Adobe* Creative Cloud", "Adobe Creative Cloud");
  }

  lemma AdobeSteps(a: string, b: string, s: string, x: string)
    requires a == "Adobe" && b == " Creative Cloud" && s == a + "*" + b && x == a + b
    ensures NormalizeMerchantName(s) == x
  {
    calc {
      NormalizeMerchantName(s);
      Title(Join(" ", Words(CleanedName(s))));
      { AdobeParts(a, b); CleanStar(a, b, s); }
      Title(Join(" ", Words(x)));
      { AdobeWords(x); }
      Title(x);
      { AdobeTitled(x); }
      x;
    }
  }

  lemma AdobeTitled(x: string)
    requires x == "Adobe" + " Creative Cloud"
    ensures Title(x) == x
  {
    TitleFixed(x);
  }

  lemma AdobeParts(a: string, b: string)
    requires a == "Adobe" && b == " Creative Cloud"
    ensures a != [] && b != [] && !IsSpace(a[0]) && !IsSpace(b[|b| - 1])
    ensures '*' !in a && '*' !in b && '.' !in a && '.' !in b
  {
  }

  lemma AdobeWords(x: string)
    requires x == "Adobe" + " Creative Cloud"
    ensures Join(" ", Words(x)) == x
  {
    assert IsWord("Adobe") && IsWord("Creative") && IsWord("Cloud");
    ThreeWords("Adobe", "Creative", "Cloud", x);
  }
}
