/**
 * The monthly balance report of reports/balance.go: the flows of several
 * lists are summed per month, the months are sorted, and the report holds,
 * for each month in order, its first instant and the running total up to
 * and including that month.
 *
 * A flow's month is read from its parent transaction's date through a
 * calendar, the Year() and Month() of an instant in its location, which is
 * a parameter here. A month is stored under the key year*16 + month.
 */
module Reports {
  import opened Amounts
  import opened Sorting
  import L = Ledger

  type GUID = L.GUID

  type MonthNum = m: int | 1 <= m <= 12 witness 1

  datatype YearMonth = YearMonth(year: int, month: MonthNum)

  /** when.Year() and when.Month() of an instant. */
  type Calendar = int -> YearMonth

  /** The month key of reports/balance.go: year*16 + month. */
  function Key(ym: YearMonth): int
  {
    ym.year * 16 + ym.month
  }

  /** Month keys compare as the months they stand for, in every year. */
  lemma KeyOrder(a: YearMonth, b: YearMonth)
    ensures Key(a) < Key(b) <==> a.year < b.year || (a.year == b.year && a.month < b.month)
    ensures Key(a) == Key(b) <==> a == b
  {
    if a.year < b.year {
      assert Key(a) <= a.year * 16 + 12 < (a.year + 1) * 16 <= Key(b);
    } else if b.year < a.year {
      assert Key(b) <= b.year * 16 + 12 < (b.year + 1) * 16 <= Key(a);
    }
  }

  /** Go's integer division by a positive divisor, which truncates toward zero. */
  function GoDiv(a: int, b: int): (q: int)
    requires b > 0
    ensures a >= 0 ==> 0 <= a - q * b < b
    ensures a < 0 ==> -b < a - q * b <= 0
  {
    if a >= 0 then a / b else -((-a) / b)
  }

  /** Go's remainder, which takes the sign of the dividend. */
  function GoMod(a: int, b: int): (r: int)
    requires b > 0
    ensures GoDiv(a, b) * b + r == a
    ensures a >= 0 ==> 0 <= r < b
    ensures a < 0 ==> -b < r <= 0
  {
    a - GoDiv(a, b) * b
  }

  /** A UTC calendar instant. */
  datatype Time = Time(year: int, month: MonthNum, day: int, hour: int, minute: int, second: int, nsec: int)

  /**
   * time.Date(year, time.Month(month), 1, 0, 0, 0, 0, time.UTC): a month
   * outside 1..12 is carried into the year, rounding toward minus infinity.
   */
  function FirstOfMonth(year: int, month: int): (t: Time)
    ensures t.year * 12 + t.month == year * 12 + month
    ensures t.day == 1 && t.hour == 0 && t.minute == 0 && t.second == 0 && t.nsec == 0
  {
    var m := month - 1;
    Time(year + m / 12, m % 12 + 1, 1, 0, 0, 0, 0)
  }

  /** The first instant of a month, as time.Date builds it from the key. */
  function KeyTime(k: int): Time
  {
    FirstOfMonth(GoDiv(k, 16), GoMod(k, 16))
  }

  /** For a year that is not negative, the key decodes back to its year and month. */
  lemma KeyRoundTrip(ym: YearMonth)
    requires ym.year >= 0
    ensures GoDiv(Key(ym), 16) == ym.year && GoMod(Key(ym), 16) == ym.month
    ensures KeyTime(Key(ym)) == MonthStart(ym)
  {
    var k := Key(ym);
    var q := GoDiv(k, 16);
    assert 0 <= k - q * 16 < 16;
    assert (ym.year - q) * 16 + ym.month == k - q * 16;
  }

  /**
   * Before year 0 the truncating / and % decode a key to another month:
   * March of year -1 comes back as November of year -2.
   */
  lemma NegativeYearKey()
    ensures Key(YearMonth(-1, 3)) == -13
    ensures GoDiv(-13, 16) == 0 && GoMod(-13, 16) == -13
    ensures KeyTime(-13) == Time(-2, 11, 1, 0, 0, 0, 0)
  {
  }

  /** The date of a flow's parent transaction, f.Parent.Date (Balance requires that every flow has one). */
  function FlowDate(txs: map<GUID, L.Transaction>, f: L.Flow): int
  {
    if f.parent.Some? && f.parent.value in txs then txs[f.parent.value].date else 0
  }

  predicate HasParent(txs: map<GUID, L.Transaction>, f: L.Flow)
  {
    f.parent.Some? && f.parent.value in txs
  }

  /** The month key of a flow. */
  function MonthKey(txs: map<GUID, L.Transaction>, cal: Calendar): L.Flow -> int
  {
    f => Key(cal(FlowDate(txs, f)))
  }

  /** The lists of flows one after another. */
  function Flatten(flows: seq<seq<L.Flow>>): seq<L.Flow>
  {
    if flows == [] then [] else Flatten(flows[..|flows| - 1]) + flows[|flows| - 1]
  }

  /** The flows of s that fall in month k, in order. */
  function Select(s: seq<L.Flow>, key: L.Flow -> int, k: int): (r: seq<L.Flow>)
    ensures forall f :: f in r ==> f in s && key(f) == k
  {
    if s == [] then []
    else
      var init := Select(s[..|s| - 1], key, k);
      if key(s[|s| - 1]) == k then init + [s[|s| - 1]] else init
  }

  /** The exact sum of month k. */
  function MonthTotal(s: seq<L.Flow>, key: L.Flow -> int, k: int): real
  {
    L.PriceTotal(Select(s, key, k))
  }

  /** The months in which some flow of s falls. */
  function Months(s: seq<L.Flow>, key: L.Flow -> int): set<int>
  {
    set f | f in s :: key(f)
  }

  /** perMonth after one more flow: its price added to its month's sum, which starts at zero. */
  function AddFlow(m: map<int, Rat>, f: L.Flow, key: L.Flow -> int): map<int, Rat>
  {
    m[key(f) := Plus(if key(f) in m then m[key(f)] else Zero, f.price)]
  }

  /** The perMonth map as the nested loops of Balance fill it, one flow at a time. */
  function PerMonth(s: seq<L.Flow>, key: L.Flow -> int): map<int, Rat>
  {
    if s == [] then map[] else AddFlow(PerMonth(s[..|s| - 1], key), s[|s| - 1], key)
  }

  /** The first instant of a month. */
  function MonthStart(ym: YearMonth): Time
  {
    Time(ym.year, ym.month, 1, 0, 0, 0, 0)
  }

  /** One more flow at the end of a list. */
  lemma PriceTotalSnoc(s: seq<L.Flow>, x: L.Flow)
    ensures L.PriceTotal(s + [x]) == L.PriceTotal(s) + L.FlowValue(x)
  {
    assert (s + [x])[..|s + [x]| - 1] == s;
  }

  lemma MonthsStep(s: seq<L.Flow>, key: L.Flow -> int)
    requires s != []
    ensures Months(s, key) == Months(s[..|s| - 1], key) + {key(s[|s| - 1])}
  {
    assert forall f :: f in s <==> f in s[..|s| - 1] || f == s[|s| - 1] by {
      assert s == s[..|s| - 1] + [s[|s| - 1]];
    }
  }

  /**
   * perMonth holds exactly the months in which some flow falls, each with
   * the exact sum of that month's flows.
   */
  lemma {:induction false} PerMonthSpec(s: seq<L.Flow>, key: L.Flow -> int)
    ensures PerMonth(s, key).Keys == Months(s, key)
    ensures forall k :: k in PerMonth(s, key) ==> Value(PerMonth(s, key)[k]) == MonthTotal(s, key, k)
  {
    if s != [] {
      var init := s[..|s| - 1];
      var x := s[|s| - 1];
      PerMonthSpec(init, key);
      MonthsStep(s, key);
      forall k | k in PerMonth(s, key)
        ensures Value(PerMonth(s, key)[k]) == MonthTotal(s, key, k)
      {
        if k == key(x) {
          if k !in PerMonth(init, key) {
            NoneSelected(init, key, k);
          }
          PriceTotalSnoc(Select(init, key, k), x);
        }
      }
    }
  }

  /** A month in which no flow falls has no flows. */
  lemma {:induction false} NoneSelected(s: seq<L.Flow>, key: L.Flow -> int, k: int)
    requires k !in Months(s, key)
    ensures Select(s, key, k) == []
  {
    if s != [] {
      MonthsStep(s, key);
      NoneSelected(s[..|s| - 1], key, k);
    }
  }

  /** The running total over the months ks: the sum of their month totals. */
  function Cumulative(s: seq<L.Flow>, key: L.Flow -> int, ks: seq<int>): real
  {
    if ks == [] then 0.0 else Cumulative(s, key, ks[..|ks| - 1]) + MonthTotal(s, key, ks[|ks| - 1])
  }

  predicate Increasing(ks: seq<int>)
  {
    forall i, j :: 0 <= i < j < |ks| ==> ks[i] < ks[j]
  }

  lemma {:induction false} CumulativeEmpty(key: L.Flow -> int, ks: seq<int>)
    ensures Cumulative([], key, ks) == 0.0
  {
    if ks != [] {
      CumulativeEmpty(key, ks[..|ks| - 1]);
    }
  }

  /** One more flow adds its price to the running total once, if its month is listed. */
  lemma {:induction false} CumulativeStep(s: seq<L.Flow>, x: L.Flow, key: L.Flow -> int, ks: seq<int>)
    requires Distinct(ks)
    ensures Cumulative(s + [x], key, ks) ==
      Cumulative(s, key, ks) + (if key(x) in ks then L.FlowValue(x) else 0.0)
  {
    if ks != [] {
      var init := ks[..|ks| - 1];
      var k := ks[|ks| - 1];
      assert key(x) in ks <==> key(x) in init || key(x) == k by {
        assert ks == init + [k];
      }
      CumulativeStep(s, x, key, init);
      assert (s + [x])[..|s + [x]| - 1] == s;
      if key(x) == k {
        assert key(x) !in init;
        PriceTotalSnoc(Select(s, key, k), x);
      }
    }
  }

  /**
   * Summing the month totals over distinct months that cover every flow
   * gives the total of all flows.
   */
  lemma {:induction false} CumulativeAll(s: seq<L.Flow>, key: L.Flow -> int, ks: seq<int>)
    requires Distinct(ks)
    requires forall f :: f in s ==> key(f) in ks
    ensures Cumulative(s, key, ks) == L.PriceTotal(s)
  {
    if s == [] {
      CumulativeEmpty(key, ks);
    } else {
      var init := s[..|s| - 1];
      var x := s[|s| - 1];
      assert s == init + [x];
      assert forall f :: f in init ==> f in s;
      CumulativeAll(init, key, ks);
      CumulativeStep(init, x, key, ks);
    }
  }

  function IntLe(): (int, int) -> bool
  {
    (a: int, b: int) => a <= b
  }

  lemma IntLeTotal()
    ensures TotalPreorder(IntLe())
  {
  }

  datatype BalanceReport = BalanceReport(T: seq<Time>, values: seq<Rat>)

  lemma PerMonthSnoc(s: seq<L.Flow>, x: L.Flow, key: L.Flow -> int)
    ensures PerMonth(s + [x], key) == AddFlow(PerMonth(s, key), x, key)
  {
    assert (s + [x])[..|s + [x]| - 1] == s;
  }

  lemma FlattenSnoc(flows: seq<seq<L.Flow>>, i: int)
    requires 0 <= i < |flows|
    ensures Flatten(flows[..i + 1]) == Flatten(flows[..i]) + flows[i]
  {
    assert flows[..i + 1][..i] == flows[..i];
  }

  /** The inner loop of Balance: the flows of one list added to perMonth. */
  method AddFlows(perMonth0: map<int, Rat>, ghost done: seq<L.Flow>, fs: seq<L.Flow>, key: L.Flow -> int)
    returns (perMonth: map<int, Rat>)
    requires perMonth0 == PerMonth(done, key)
    ensures perMonth == PerMonth(done + fs, key)
  {
    perMonth := perMonth0;
    ghost var cur := done;
    for j := 0 to |fs|
      invariant cur == done + fs[..j]
      invariant perMonth == PerMonth(cur, key)
    {
      var f := fs[j];
      var k := key(f);
      var x := if k in perMonth then perMonth[k] else Zero;
      perMonth := perMonth[k := Plus(x, f.price)];
      PerMonthSnoc(cur, f, key);
      cur := cur + [f];
      assert cur == done + fs[..j + 1];
    }
    assert fs[..|fs|] == fs;
  }

  /** The first loop of Balance: perMonth, filled one flow at a time. */
  method SumPerMonth(flows: seq<seq<L.Flow>>, key: L.Flow -> int) returns (perMonth: map<int, Rat>)
    ensures perMonth == PerMonth(Flatten(flows), key)
  {
    perMonth := map[];
    for i := 0 to |flows|
      invariant perMonth == PerMonth(Flatten(flows[..i]), key)
    {
      FlattenSnoc(flows, i);
      perMonth := AddFlows(perMonth, Flatten(flows[..i]), flows[i], key);
    }
    assert flows[..|flows|] == flows;
  }

  /** The second loop: every key of perMonth once, in map order. */
  method KeysOf(perMonth: map<int, Rat>) returns (months: seq<int>)
    ensures Distinct(months) && (set m | m in months) == perMonth.Keys
  {
    months := [];
    var todo := perMonth.Keys;
    while todo != {}
      invariant Distinct(months)
      invariant (set m | m in months) + todo == perMonth.Keys
      invariant forall m :: m in months ==> m !in todo
      decreases todo
    {
      if forall k: int :: k !in todo {
        assert false;  // todo is not empty
      }
      var m :| m in todo;
      months := months + [m];
      todo := todo - {m};
    }
  }

  /** The keys of perMonth, sorted by sort.Ints: each key once, in increasing order. */
  method SortedKeys(perMonth: map<int, Rat>) returns (months: seq<int>)
    ensures Increasing(months) && (set m | m in months) == perMonth.Keys
  {
    var keys := KeysOf(perMonth);
    IntLeTotal();
    months := SortSeq(keys, IntLe());
    DistinctPermutation(keys, months);
  }

  /** The last loop: the running totals, one entry per month. */
  method RunningTotals(months: seq<int>, perMonth: map<int, Rat>, ghost s: seq<L.Flow>, ghost key: L.Flow -> int)
    returns (rep: BalanceReport)
    requires forall m :: m in months ==> m in perMonth && Value(perMonth[m]) == MonthTotal(s, key, m)
    ensures |rep.T| == |rep.values| == |months|
    ensures forall i :: 0 <= i < |months| ==> rep.T[i] == KeyTime(months[i])
    ensures forall i :: 0 <= i < |months| ==> Value(rep.values[i]) == Cumulative(s, key, months[..i + 1])
  {
    rep := BalanceReport([], []);
    var val := Zero;
    for i := 0 to |months|
      invariant |rep.T| == |rep.values| == i
      invariant Value(val) == Cumulative(s, key, months[..i])
      invariant forall l :: 0 <= l < i ==> rep.T[l] == KeyTime(months[l])
      invariant forall l :: 0 <= l < i ==> Value(rep.values[l]) == Cumulative(s, key, months[..l + 1])
    {
      var m := months[i];
      var t := FirstOfMonth(GoDiv(m, 16), GoMod(m, 16));
      var next := Plus(val, perMonth[m]);
      assert months[..i + 1][..i] == months[..i];
      rep := BalanceReport(rep.T + [t], rep.values + [next]);
      val := next;
    }
  }

  /** The last running total is the total of all flows. */
  lemma BalanceTotals(s: seq<L.Flow>, key: L.Flow -> int, months: seq<int>, values: seq<Rat>)
    requires Distinct(months) && Months(s, key) <= (set m | m in months)
    requires |values| == |months|
    requires forall i :: 0 <= i < |months| ==> Value(values[i]) == Cumulative(s, key, months[..i + 1])
    ensures |months| > 0 ==> Value(values[|months| - 1]) == L.PriceTotal(s)
  {
    if |months| > 0 {
      assert months[..|months|] == months;
      assert forall f :: f in s ==> key(f) in Months(s, key);
      CumulativeAll(s, key, months);
    }
  }

  /**
   * Balance: per-month sums of all the flows of all the lists, in
   * increasing month order, as running totals. The ghost months are the
   * sorted keys.
   */
  method Balance(flows: seq<seq<L.Flow>>, txs: map<GUID, L.Transaction>, cal: Calendar)
    returns (rep: BalanceReport, ghost months: seq<int>)
    requires forall i, j :: 0 <= i < |flows| && 0 <= j < |flows[i]| ==> HasParent(txs, flows[i][j])
    ensures Increasing(months)
    ensures (set m | m in months) == Months(Flatten(flows), MonthKey(txs, cal))
    ensures |rep.T| == |rep.values| == |months|
    ensures forall i :: 0 <= i < |months| ==> rep.T[i] == KeyTime(months[i])
    ensures forall i :: 0 <= i < |months| ==>
      Value(rep.values[i]) == Cumulative(Flatten(flows), MonthKey(txs, cal), months[..i + 1])
    ensures Flatten(flows) == [] <==> rep.T == []
    ensures |months| > 0 ==> Value(rep.values[|months| - 1]) == L.PriceTotal(Flatten(flows))
  {
    var key := MonthKey(txs, cal);
    ghost var s := Flatten(flows);
    var perMonth := SumPerMonth(flows, key);
    PerMonthSpec(s, key);
    var sorted := SortedKeys(perMonth);
    months := sorted;
    rep := RunningTotals(sorted, perMonth, s, key);
    BalanceTotals(s, key, months, rep.values);
    if s != [] {
      assert key(s[0]) in Months(s, key);
    }
  }

  /**
   * The values of a report follow the recurrence of the last loop: the
   * first month's sum, then each month's sum added to the previous value.
   */
  lemma ReportRecurrence(s: seq<L.Flow>, key: L.Flow -> int, months: seq<int>, values: seq<Rat>)
    requires |values| == |months|
    requires forall i :: 0 <= i < |months| ==> Value(values[i]) == Cumulative(s, key, months[..i + 1])
    ensures |months| > 0 ==> Value(values[0]) == MonthTotal(s, key, months[0])
    ensures forall i :: 0 < i < |months| ==> Value(values[i]) == Value(values[i - 1]) + MonthTotal(s, key, months[i])
  {
    if |months| > 0 {
      assert months[..1][..0] == [] && months[..1][0] == months[0];
      assert Cumulative(s, key, months[..1]) == Cumulative(s, key, []) + MonthTotal(s, key, months[0]);
    }
    forall i | 0 < i < |months|
      ensures Value(values[i]) == Value(values[i - 1]) + MonthTotal(s, key, months[i])
    {
      assert months[..i + 1][..i] == months[..i];
    }
  }

  /** t is the first instant of the month of one of the flows. */
  ghost predicate StartOfSomeMonth(s: seq<L.Flow>, txs: map<GUID, L.Transaction>, cal: Calendar, t: Time)
  {
    exists f :: f in s && t == MonthStart(cal(FlowDate(txs, f)))
  }

  /**
   * When no flow falls before year 0, the report's instants are the first
   * instants of the months of the flows, strictly increasing.
   */
  lemma ReportMonths(s: seq<L.Flow>, txs: map<GUID, L.Transaction>, cal: Calendar, months: seq<int>, T: seq<Time>)
    requires forall f :: f in s ==> cal(FlowDate(txs, f)).year >= 0
    requires Increasing(months) && (set m | m in months) == Months(s, MonthKey(txs, cal))
    requires |T| == |months| && forall i :: 0 <= i < |months| ==> T[i] == KeyTime(months[i])
    ensures forall i :: 0 <= i < |T| ==> StartOfSomeMonth(s, txs, cal, T[i])
    ensures forall i, j :: 0 <= i < j < |T| ==>
      T[i].year < T[j].year || (T[i].year == T[j].year && T[i].month < T[j].month)
  {
    var key := MonthKey(txs, cal);
    forall i | 0 <= i < |T|
      ensures StartOfSomeMonth(s, txs, cal, T[i])
    {
      assert months[i] in Months(s, key);
      var f :| f in s && key(f) == months[i];
      KeyRoundTrip(cal(FlowDate(txs, f)));
      assert T[i] == MonthStart(cal(FlowDate(txs, f)));
    }
    forall i, j | 0 <= i < j < |T|
      ensures T[i].year < T[j].year || (T[i].year == T[j].year && T[i].month < T[j].month)
    {
      assert months[i] in Months(s, key) && months[j] in Months(s, key);
      var f :| f in s && key(f) == months[i];
      var g :| g in s && key(g) == months[j];
      KeyRoundTrip(cal(FlowDate(txs, f)));
      KeyRoundTrip(cal(FlowDate(txs, g)));
      KeyOrder(cal(FlowDate(txs, f)), cal(FlowDate(txs, g)));
    }
  }
}
