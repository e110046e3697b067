/**
 * The admin analytics dashboard (components/AnalyticsDashboard.tsx): total
 * revenue, the complaint count and ratio, the service usage figures, and the
 * revenue trend that groups paid transactions by day and keeps the last
 * seven days. Amounts are whole numbers (minor units).
 */
module Analytics {
  import opened Wrappers
  import opened Text

  /** A transaction's `amount` field: missing (`undefined`), `null`, or a number. */
  datatype Amount = Undefined | Null | Num(n: int)

  datatype Transaction = Transaction(status: string, amount: Amount, createdAt: string)

  /** A contact submission; only its optional subject matters here. */
  datatype Contact = Contact(subject: Option<string>)

  predicate Paid(t: Transaction) {
    t.status == "paid"
  }

  /** `t.amount || 0`: a missing or null amount (and 0) counts as 0. */
  function AmountOrZero(a: Amount): (r: int)
    ensures a.Num? ==> r == a.n
    ensures !a.Num? ==> r == 0
  {
    if a.Num? then a.n else 0
  }

  /** `totalRevenue`: the amounts of the paid transactions, a missing one as 0. */
  function TotalRevenue(txs: seq<Transaction>): int {
    if txs == [] then 0
    else TotalRevenue(txs[..|txs| - 1]) + (if Paid(txs[|txs| - 1]) then AmountOrZero(txs[|txs| - 1].amount) else 0)
  }

  /** With no negative amount the revenue is never negative. */
  lemma {:induction false} RevenueNonNegative(txs: seq<Transaction>)
    requires forall i :: 0 <= i < |txs| ==> AmountOrZero(txs[i].amount) >= 0
    ensures TotalRevenue(txs) >= 0
  {
    if txs != [] {
      var init := txs[..|txs| - 1];
      assert forall i :: 0 <= i < |init| ==> init[i] == txs[i];
      RevenueNonNegative(init);
    }
  }

  /** The paid transactions, in order. */
  function PaidOnly(txs: seq<Transaction>): (r: seq<Transaction>)
    ensures forall t :: t in r <==> t in txs && Paid(t)
  {
    if txs == [] then []
    else
      var init := PaidOnly(txs[..|txs| - 1]);
      var last := txs[|txs| - 1];
      assert forall t :: t in txs <==> t in txs[..|txs| - 1] || t == last;
      if Paid(last) then init + [last] else init
  }

  /** Filtering keeps the order and the repeats: the paid transactions of a
      concatenation are those of each part in turn, and a single transaction
      is kept exactly when it is paid. */
  lemma {:induction false} PaidOnlyAppend(a: seq<Transaction>, b: seq<Transaction>)
    ensures PaidOnly(a + b) == PaidOnly(a) + PaidOnly(b)
    ensures |b| == 1 ==> PaidOnly(b) == if Paid(b[0]) then b else []
  {
    if b == [] {
      assert a + b == a;
    } else {
      assert (a + b)[..|a + b| - 1] == a + b[..|b| - 1];
      PaidOnlyAppend(a, b[..|b| - 1]);
    }
  }

  /** Transactions that are not paid do not count towards the revenue. */
  lemma {:induction false} RevenueIgnoresUnpaid(txs: seq<Transaction>)
    ensures TotalRevenue(txs) == TotalRevenue(PaidOnly(txs))
  {
    if txs != [] {
      var init, last := txs[..|txs| - 1], txs[|txs| - 1];
      RevenueIgnoresUnpaid(init);
      if Paid(last) {
        assert (PaidOnly(init) + [last])[..|PaidOnly(init)|] == PaidOnly(init);
      }
    }
  }

  // ------------------------------------------------------------ complaints

  /** `c.subject?.toUpperCase().startsWith('COMPLAINT')`; no subject is no complaint. */
  predicate IsComplaint(c: Contact) {
    c.subject.Some? && StartsWith(ToUpper(c.subject.value), "COMPLAINT")
  }

  /** `activeComplaints`: the number of complaints. */
  function ActiveComplaints(contacts: seq<Contact>): (r: nat)
    ensures r <= |contacts|
    ensures r == 0 <==> forall i :: 0 <= i < |contacts| ==> !IsComplaint(contacts[i])
    ensures r == |contacts| <==> forall i :: 0 <= i < |contacts| ==> IsComplaint(contacts[i])
  {
    if contacts == [] then 0
    else
      var rest := ActiveComplaints(contacts[1..]);
      assert forall i :: 1 <= i < |contacts| ==> contacts[i] == contacts[1..][i - 1];
      (if IsComplaint(contacts[0]) then 1 else 0) + rest
  }

  /** The count adds up over a concatenation, and a single contact counts 1
      exactly when it is a complaint: it is the number of complaints. */
  lemma {:induction false} ComplaintsAppend(a: seq<Contact>, b: seq<Contact>)
    ensures ActiveComplaints(a + b) == ActiveComplaints(a) + ActiveComplaints(b)
    ensures |a| == 1 ==> ActiveComplaints(a) == if IsComplaint(a[0]) then 1 else 0
  {
    if a == [] {
      assert a + b == b;
    } else {
      assert (a + b)[1..] == a[1..] + b;
      ComplaintsAppend(a[1..], b);
    }
  }

  /** A slice of a chart: its name and its value. */
  datatype Slice = Slice(name: string, value: int)

  /** `complaintData`: the complaints and the rest, which together are every contact. */
  function ComplaintData(contacts: seq<Contact>): (r: seq<Slice>)
    ensures |r| == 2 && r[0].name == "Complaints" && r[1].name == "General Inquiries"
    ensures r[0].value == ActiveComplaints(contacts)
    ensures r[0].value + r[1].value == |contacts| && r[1].value >= 0
  {
    var complaintCount := ActiveComplaints(contacts);
    [Slice("Complaints", complaintCount), Slice("General Inquiries", |contacts| - complaintCount)]
  }

  /** `serviceUsageData`: the number of CV sessions and of comparisons, whatever
      the records hold. */
  function ServiceUsageData<S, C>(cvSessions: seq<S>, comparisons: seq<C>): (r: seq<Slice>)
    ensures |r| == 2 && r[0].name == "CV Sessions" && r[1].name == "Comparisons"
    ensures r[0].value == |cvSessions| && r[1].value == |comparisons|
  {
    [Slice("CV Sessions", |cvSessions|), Slice("Comparisons", |comparisons|)]
  }

  // ------------------------------------------------------- revenue by date

  /** The days of the paid transactions, in order, repeats included. */
  function PaidDays(txs: seq<Transaction>): seq<string> {
    if txs == [] then []
    else
      var init := PaidDays(txs[..|txs| - 1]);
      var last := txs[|txs| - 1];
      if Paid(last) then init + [DatePart(last.createdAt)] else init
  }

  /** `grouped[date] || 0` for a map of numbers: a day without an entry reads as 0. */
  function At(m: map<string, int>, d: string): int {
    if d in m then m[d] else 0
  }

  /** The per-day sums, each amount read as `t.amount || 0` (the evidently
      intended grouping; see `GroupedAsWritten` for the code as it stands). */
  function Grouped(txs: seq<Transaction>): (m: map<string, int>)
    ensures forall d :: d in m <==> d in PaidDays(txs)
  {
    if txs == [] then map[]
    else
      var m := Grouped(txs[..|txs| - 1]);
      var last := txs[|txs| - 1];
      if Paid(last) then
        var day := DatePart(last.createdAt);
        m[day := At(m, day) + AmountOrZero(last.amount)]
      else m
  }

  /** One more transaction: a paid one adds its amount to its day. */
  lemma {:induction false} GroupedSnoc(txs: seq<Transaction>, t: Transaction)
    ensures Paid(t) ==>
      Grouped(txs + [t]) == Grouped(txs)[DatePart(t.createdAt) := At(Grouped(txs), DatePart(t.createdAt)) + AmountOrZero(t.amount)]
    ensures !Paid(t) ==> Grouped(txs + [t]) == Grouped(txs)
  {
    assert (txs + [t])[..|txs|] == txs;
  }

  /** One more transaction: a paid one adds its amount to the total. */
  lemma {:induction false} TotalSnoc(txs: seq<Transaction>, t: Transaction)
    ensures TotalRevenue(txs + [t]) == TotalRevenue(txs) + if Paid(t) then AmountOrZero(t.amount) else 0
  {
    assert (txs + [t])[..|txs|] == txs;
  }

  /** Equal groupings stay equal when the same transaction follows both. */
  lemma {:induction false} GroupedExtend(a: seq<Transaction>, b: seq<Transaction>, t: Transaction)
    requires Grouped(a) == Grouped(b)
    ensures Grouped(a + [t]) == Grouped(b + [t])
  {
    GroupedSnoc(a, t);
    GroupedSnoc(b, t);
  }

  /** Equal totals stay equal when the same transaction follows both. */
  lemma {:induction false} TotalExtend(a: seq<Transaction>, b: seq<Transaction>, t: Transaction)
    requires TotalRevenue(a) == TotalRevenue(b)
    ensures TotalRevenue(a + [t]) == TotalRevenue(b + [t])
  {
    TotalSnoc(a, t);
    TotalSnoc(b, t);
  }

  /** Both sides of `UnpaidIgnored` end with the last transaction of `after`. */
  lemma {:induction false} SplitLast(before: seq<Transaction>, t: Transaction, after: seq<Transaction>)
    requires after != []
    ensures before + [t] + after == (before + [t] + after[..|after| - 1]) + [after[|after| - 1]]
    ensures before + after == (before + after[..|after| - 1]) + [after[|after| - 1]]
  {
    assert after == after[..|after| - 1] + [after[|after| - 1]];
  }

  /** A transaction that is not paid, wherever it stands, reaches neither the
      trend nor the total revenue. */
  lemma {:induction false} UnpaidIgnored(before: seq<Transaction>, t: Transaction, after: seq<Transaction>)
    requires !Paid(t)
    ensures Grouped(before + [t] + after) == Grouped(before + after)
    ensures TotalRevenue(before + [t] + after) == TotalRevenue(before + after)
  {
    UnpaidNotGrouped(before, t, after);
    UnpaidNotTotalled(before, t, after);
  }

  lemma {:induction false} UnpaidNotGrouped(before: seq<Transaction>, t: Transaction, after: seq<Transaction>)
    requires !Paid(t)
    ensures Grouped(before + [t] + after) == Grouped(before + after)
  {
    if after == [] {
      assert before + [t] + after == before + [t] && before + after == before;
      GroupedSnoc(before, t);
    } else {
      var init, last := after[..|after| - 1], after[|after| - 1];
      UnpaidNotGrouped(before, t, init);
      SplitLast(before, t, after);
      GroupedExtend(before + [t] + init, before + init, last);
    }
  }

  lemma {:induction false} UnpaidNotTotalled(before: seq<Transaction>, t: Transaction, after: seq<Transaction>)
    requires !Paid(t)
    ensures TotalRevenue(before + [t] + after) == TotalRevenue(before + after)
  {
    if after == [] {
      assert before + [t] + after == before + [t] && before + after == before;
      TotalSnoc(before, t);
    } else {
      var init, last := after[..|after| - 1], after[|after| - 1];
      UnpaidNotTotalled(before, t, init);
      SplitLast(before, t, after);
      TotalExtend(before + [t] + init, before + init, last);
    }
  }

  /** The `forEach` that fills `grouped`, with each amount read as `|| 0`. */
  method GroupByDay(txs: seq<Transaction>) returns (grouped: map<string, int>)
    ensures grouped == Grouped(txs)
  {
    grouped := map[];
    for i := 0 to |txs|
      invariant grouped == Grouped(txs[..i])
    {
      assert txs[..i + 1][..i] == txs[..i];
      var t := txs[i];
      if t.status == "paid" {
        var date := DatePart(t.createdAt);
        grouped := grouped[date := (if date in grouped then grouped[date] else 0) + AmountOrZero(t.amount)];
      }
    }
    assert txs[..|txs|] == txs;
  }

  /** The sum of `m` over the listed days. */
  function SumOver(days: seq<string>, m: map<string, int>): int {
    if days == [] then 0 else At(m, days[0]) + SumOver(days[1..], m)
  }

  /** Changing the value of a day that is not listed does not change the sum. */
  lemma {:induction false} SumOverOther(days: seq<string>, m: map<string, int>, d: string, v: int)
    requires d !in days
    ensures SumOver(days, m[d := v]) == SumOver(days, m)
  {
    if days != [] {
      SumOverOther(days[1..], m, d, v);
    }
  }

  /** Adding `a` to a day listed once adds `a` to the sum. */
  lemma {:induction false} SumOverAdd(days: seq<string>, m: map<string, int>, d: string, a: int)
    requires StrictlySorted(days) && d in days
    ensures SumOver(days, m[d := At(m, d) + a]) == SumOver(days, m) + a
  {
    if days[0] == d {
      forall j | 1 <= j < |days| ensures days[j] != d {
        LessIrreflexive(d);
      }
      SumOverOther(days[1..], m, d, At(m, d) + a);
    } else {
      SumOverAdd(days[1..], m, d, a);
    }
  }

  /** Listing a new day adds its value to the sum. */
  lemma {:induction false} SumOverInsert(days: seq<string>, m: map<string, int>, d: string)
    requires d !in days && StrictlySorted(days)
    ensures SumOver(InsertSorted(d, days), m) == SumOver(days, m) + At(m, d)
  {
    if days != [] && !Less(d, days[0]) {
      SumOverInsert(days[1..], m, d);
    }
  }

  /** The days `revenueData` lists before the last-seven cut:
      `Object.keys(grouped).sort()`. */
  function SortedDays(txs: seq<Transaction>): (r: seq<string>)
    ensures StrictlySorted(r)
    ensures forall d :: d in r <==> d in Grouped(txs)
  {
    SortDistinct(PaidDays(txs))
  }

  /** One more transaction: a paid one inserts its day into the sorted days. */
  lemma {:induction false} SortedDaysSnoc(txs: seq<Transaction>, t: Transaction)
    ensures Paid(t) ==> SortedDays(txs + [t]) == InsertSorted(DatePart(t.createdAt), SortedDays(txs))
    ensures !Paid(t) ==> SortedDays(txs + [t]) == SortedDays(txs)
  {
    assert (txs + [t])[..|txs|] == txs;
    var p := PaidDays(txs);
    assert (p + [DatePart(t.createdAt)])[..|p|] == p;
  }

  /** Adding `a` to day `d`, which is listed afresh if it is new, adds `a` to
      the sum over the sorted days. */
  lemma {:induction false} SumOverAddDay(days: seq<string>, m: map<string, int>, d: string, a: int)
    requires StrictlySorted(days) && (d in m ==> d in days)
    ensures SumOver(InsertSorted(d, days), m[d := At(m, d) + a]) == SumOver(days, m) + a
  {
    if d in days {
      SumOverAdd(days, m, d, a);
      InsertPresent(d, days);
    } else {
      SumOverOther(days, m, d, a);
      SumOverInsert(days, m[d := a], d);
    }
  }

  /** One more transaction keeps the per-day sums adding up to the total. */
  lemma {:induction false} DaySumsStep(init: seq<Transaction>, last: Transaction)
    requires SumOver(SortedDays(init), Grouped(init)) == TotalRevenue(init)
    ensures SumOver(SortedDays(init + [last]), Grouped(init + [last])) == TotalRevenue(init + [last])
  {
    if Paid(last) {
      DaySumsPaid(init, last);
    } else {
      DaySumsUnpaid(init, last);
    }
  }

  lemma {:induction false} DaySumsPaid(init: seq<Transaction>, last: Transaction)
    requires Paid(last)
    requires SumOver(SortedDays(init), Grouped(init)) == TotalRevenue(init)
    ensures SumOver(SortedDays(init + [last]), Grouped(init + [last])) == TotalRevenue(init + [last])
  {
    var txs := init + [last];
    var days, m, day, a := SortedDays(init), Grouped(init), DatePart(last.createdAt), AmountOrZero(last.amount);
    SumOverAddDay(days, m, day, a);
    SortedDaysSnoc(init, last);
    GroupedSnoc(init, last);
    TotalSnoc(init, last);
    SumsMatch(SortedDays(txs), InsertSorted(day, days), Grouped(txs), m[day := At(m, day) + a]);
  }

  /** Equal day lists and equal maps give equal sums. */
  lemma {:induction false} SumsMatch(days: seq<string>, days': seq<string>, m: map<string, int>, m': map<string, int>)
    requires days == days' && m == m'
    ensures SumOver(days, m) == SumOver(days', m')
  {
  }

  lemma {:induction false} DaySumsUnpaid(init: seq<Transaction>, last: Transaction)
    requires !Paid(last)
    requires SumOver(SortedDays(init), Grouped(init)) == TotalRevenue(init)
    ensures SumOver(SortedDays(init + [last]), Grouped(init + [last])) == TotalRevenue(init + [last])
  {
    SortedDaysSnoc(init, last);
    GroupedSnoc(init, last);
    TotalSnoc(init, last);
  }

  /** Before the last-seven cut, the per-day sums add up to the total revenue. */
  lemma {:induction false} DaySumsMakeTotal(txs: seq<Transaction>)
    ensures SumOver(SortedDays(txs), Grouped(txs)) == TotalRevenue(txs)
  {
    if txs == [] {
      assert SortedDays([]) == [] by {
        assert PaidDays([]) == [];
      }
    } else {
      var init, last := txs[..|txs| - 1], txs[|txs| - 1];
      assert txs == init + [last];
      DaySumsMakeTotal(init);
      DaySumsStep(init, last);
    }
  }

  /** Inserting a day that is already listed changes nothing. */
  lemma {:induction false} InsertPresent(d: string, days: seq<string>)
    requires StrictlySorted(days) && d in days
    ensures InsertSorted(d, days) == days
  {
    if days[0] != d {
      assert d in days[1..];
      assert Less(days[0], d) by {
        var j :| 0 <= j < |days| && days[j] == d;
      }
      LessAsymmetric(d, days[0]);
      InsertPresent(d, days[1..]);
      assert days == [days[0]] + days[1..];
    }
  }

  lemma {:induction false} LessAsymmetric(a: string, b: string)
    ensures Less(a, b) ==> !Less(b, a)
  {
    if Less(a, b) && Less(b, a) {
      LessTransitive(a, b, a);
      LessIrreflexive(a);
    }
  }

  /** A point of the revenue trend: `MM/DD` and the day's sum. */
  datatype RevenuePoint = RevenuePoint(date: string, amount: int)

  /** `date.split('-').slice(1).join('/')`. */
  function Label(day: string): string {
    var parts := Split(day, '-');
    if |parts| == 1 then "" else Join(parts[1..], '/')
  }

  /** `revenueData`: the last (at most) seven days in ascending order, each
      with its sum (every listed day is a key of the grouping, so `At` reads
      `grouped[date]`). */
  function RevenueData(txs: seq<Transaction>): (r: seq<RevenuePoint>)
    ensures var days := SortedDays(txs);
      && |r| == (if |days| < 7 then |days| else 7)
      && forall i :: 0 <= i < |r| ==>
           var day := days[|days| - |r| + i];
           r[i].date == Label(day) && r[i].amount == At(Grouped(txs), day)
  {
    var days := SortedDays(txs);
    var grouped := Grouped(txs);
    var n := if |days| < 7 then |days| else 7;
    seq(n, i requires 0 <= i < n => var day := days[|days| - n + i]; RevenuePoint(Label(day), At(grouped, day)))
  }

  // ---------------------------------------------- the grouping as written

  /** A JavaScript number as the grouping can produce it. */
  datatype JsNum = NaN | Finite(v: int)

  /** `(grouped[date] || 0) + t.amount` as the source writes it: a missing
      amount turns the day's sum into NaN, which the next `|| 0` reads as 0
      (a `null` amount adds 0). */
  function AddAsWritten(current: Option<JsNum>, amount: Amount): (r: JsNum)
    ensures amount.Undefined? <==> r.NaN?
    ensures amount.Null? ==> r == Finite(if current.Some? && current.value.Finite? then current.value.v else 0)
    ensures amount.Num? ==> r == Finite((if current.Some? && current.value.Finite? then current.value.v else 0) + amount.n)
  {
    var base := if current.Some? && current.value.Finite? then current.value.v else 0;
    match amount
    case Undefined => NaN
    case Null => Finite(base)
    case Num(n) => Finite(base + n)
  }

  /** The grouping of line 63 as it stands. */
  function GroupedAsWritten(txs: seq<Transaction>): (m: map<string, JsNum>)
    ensures forall d :: d in m <==> d in PaidDays(txs)
  {
    if txs == [] then map[]
    else
      var m := GroupedAsWritten(txs[..|txs| - 1]);
      var last := txs[|txs| - 1];
      if Paid(last) then
        var day := DatePart(last.createdAt);
        m[day := AddAsWritten(if day in m then Some(m[day]) else None, last.amount)]
      else m
  }

  /** Every paid transaction carries an amount or an explicit `null`. */
  predicate NoMissingAmount(txs: seq<Transaction>) {
    forall i :: 0 <= i < |txs| ==> Paid(txs[i]) ==> !txs[i].amount.Undefined?
  }

  /** When no paid amount is missing, the code as written agrees with the
      intended grouping, so its day sums add up to the total revenue. */
  lemma {:induction false} AsWrittenAgrees(txs: seq<Transaction>)
    requires NoMissingAmount(txs)
    ensures forall d :: d in GroupedAsWritten(txs) ==> GroupedAsWritten(txs)[d] == Finite(Grouped(txs)[d])
  {
    if txs != [] {
      var init := txs[..|txs| - 1];
      assert forall i :: 0 <= i < |init| ==> init[i] == txs[i];
      AsWrittenAgrees(init);
    }
  }

  /** A day with 5, then a missing amount, then 7: the code as written shows 7
      for that day (the sum became NaN and was then read as 0), while the total
      revenue counts 12. */
  lemma {:induction false} MissingAmountResetsDay()
    ensures var day := "2024-01-01";
      var txs := [Transaction("paid", Num(5), day + "T10:00:00Z"),
                  Transaction("paid", Undefined, day + "T11:00:00Z"),
                  Transaction("paid", Num(7), day + "T12:00:00Z")];
      && day in GroupedAsWritten(txs) && GroupedAsWritten(txs)[day] == Finite(7)
      && day in Grouped(txs) && Grouped(txs)[day] == 12
      && TotalRevenue(txs) == 12
  {
    var day := "2024-01-01";
    DayOfStamp(day, "T10:00:00Z");
    DayOfStamp(day, "T11:00:00Z");
    DayOfStamp(day, "T12:00:00Z");
    SameDayReset(day, day + "T10:00:00Z", day + "T11:00:00Z", day + "T12:00:00Z");
  }

  /** Three paid transactions of one day, the middle one without an amount. */
  lemma {:induction false} SameDayReset(day: string, at1: string, at2: string, at3: string)
    requires DatePart(at1) == day && DatePart(at2) == day && DatePart(at3) == day
    ensures var txs := [Transaction("paid", Num(5), at1), Transaction("paid", Undefined, at2),
                        Transaction("paid", Num(7), at3)];
      && day in GroupedAsWritten(txs) && GroupedAsWritten(txs)[day] == Finite(7)
      && day in Grouped(txs) && Grouped(txs)[day] == 12
      && TotalRevenue(txs) == 12
  {
    var t1, t2, t3 := Transaction("paid", Num(5), at1), Transaction("paid", Undefined, at2), Transaction("paid", Num(7), at3);
    var txs := [t1, t2, t3];
    assert txs[..2] == [t1, t2] && [t1, t2][..1] == [t1] && [t1][..0] == [];
    assert GroupedAsWritten([t1]) == map[day := Finite(5)];
    assert GroupedAsWritten([t1, t2]) == map[day := NaN];
    assert Grouped([t1, t2]) == map[day := 5];
    assert TotalRevenue([t1]) == 5;
    assert TotalRevenue([t1, t2]) == 5;
  }

  /** The day of `day + rest` is `day` when `rest` starts with `T` and `day` has none. */
  lemma {:induction false} DayOfStamp(day: string, rest: string)
    requires 'T' !in day && |rest| >= 1 && rest[0] == 'T'
    ensures DatePart(day + rest) == day
  {
    var s := day + rest;
    assert s[|day|] == 'T' && 'T' in s;
    var i := IndexOf(s, 'T');
    assert s[..|day|] == day;
    assert i == |day|;
  }
}
