/**
 * The giving summary shown on the giving page: the overall total, this and
 * last month's totals, the average gift, the totals per fund and the six most
 * recent months. Amounts are integer cents; the month key of a date (its
 * parsing and `YYYY-MM` formatting) and the current and previous month keys
 * are parameters. A JavaScript `Map` that is built with `set` is a sequence of
 * (key, total) entries in insertion order.
 */
module GivingCalculations {
  import opened Wrappers
  import Seqs
  import Sorting
  import JsString
  import AuditLogs

  /** A contribution; `amount` is `None` when `Number(amount)` is not a number. */
  datatype Contribution = Contribution(amount: Option<int>, date: string, fundId: Option<string>, deletedAt: Option<string>)

  datatype Fund = Fund(id: string, name: string)

  /** A `Map<string, number>` of running totals, in insertion order. */
  type Tally = seq<(string, int)>

  datatype Totals = Totals(overall: int, monthToDate: int, previousMonth: int, averageGift: real)
  datatype FundLine = FundLine(fundId: Option<string>, name: string, amount: int)
  datatype MonthLine = MonthLine(month: string, amount: int)
  datatype Summary = Summary(totals: Totals, byFund: seq<FundLine>, monthly: seq<MonthLine>)

  /** The fund key of contributions without a fund. */
  const GeneralKey := "general"
  /** How many months the trend shows. */
  const MonthsShown := 6

  /** `Number(contribution.amount) || 0`. */
  function AmountOf(c: Contribution): int
  {
    if c.amount.Some? then c.amount.value else 0
  }

  /** The sum of the amounts. */
  function Overall(cs: seq<Contribution>): int
  {
    if cs == [] then 0 else Overall(cs[..|cs| - 1]) + AmountOf(cs[|cs| - 1])
  }

  lemma OverallAppend(cs: seq<Contribution>, c: Contribution)
    ensures Overall(cs + [c]) == Overall(cs) + AmountOf(c)
  {
    assert (cs + [c])[..|cs|] == cs;
  }

  // ---------------------------------------------------------------------------
  // Tallies

  /** The keys of a tally, in insertion order. */
  function Keys(t: Tally): (ks: seq<string>)
    ensures |ks| == |t|
    ensures forall i :: 0 <= i < |t| ==> ks[i] == t[i].0
  {
    if t == [] then [] else [t[0].0] + Keys(t[1..])
  }

  /** `map.get(key)`. */
  function Get(t: Tally, key: string): Option<int>
  {
    if t == [] then None else if t[0].0 == key then Some(t[0].1) else Get(t[1..], key)
  }

  /** The totals added up. */
  function Total(t: Tally): int
  {
    if t == [] then 0 else t[0].1 + Total(t[1..])
  }

  /** `map.set(key, (map.get(key) ?? 0) + amount)`: an existing key keeps its place, a new one goes last. */
  function Add(t: Tally, key: string, amount: int): Tally
  {
    if t == [] then [(key, amount)]
    else if t[0].0 == key then [(key, t[0].1 + amount)] + t[1..]
    else [t[0]] + Add(t[1..], key, amount)
  }

  lemma {:induction false} AddTotal(t: Tally, key: string, amount: int)
    ensures Total(Add(t, key, amount)) == Total(t) + amount
  {
    if t != [] && t[0].0 != key {
      AddTotal(t[1..], key, amount);
      assert ([t[0]] + Add(t[1..], key, amount))[1..] == Add(t[1..], key, amount);
    }
  }

  lemma {:induction false} AddGet(t: Tally, key: string, amount: int, k: string)
    ensures Get(Add(t, key, amount), k) == if k == key then Some(Get(t, key).OrElse(0) + amount) else Get(t, k)
  {
    if t != [] {
      if t[0].0 == key {
        assert ([(key, t[0].1 + amount)] + t[1..])[1..] == t[1..];
      } else {
        AddGet(t[1..], key, amount, k);
        assert ([t[0]] + Add(t[1..], key, amount))[1..] == Add(t[1..], key, amount);
      }
    }
  }

  /** Setting a key keeps the order of the keys and appends a new key at the end. */
  lemma {:induction false} AddKeys(t: Tally, key: string, amount: int)
    ensures Keys(Add(t, key, amount)) == if key in Keys(t) then Keys(t) else Keys(t) + [key]
  {
    if t != [] {
      assert Keys(t) == [t[0].0] + Keys(t[1..]);
      if t[0].0 == key {
        assert Keys(Add(t, key, amount)) == [key] + Keys(t[1..]);
      } else {
        AddKeys(t[1..], key, amount);
        assert Add(t, key, amount)[1..] == Add(t[1..], key, amount);
        assert Keys(Add(t, key, amount)) == [t[0].0] + Keys(Add(t[1..], key, amount));
      }
    }
  }

  lemma AppendDistinct(ks: seq<string>, key: string)
    requires Seqs.NoDuplicates(ks) && key !in ks
    ensures Seqs.NoDuplicates(ks + [key])
  {
  }

  /** The running totals of the contributions, keyed by `keyOf`, as the loop builds them. */
  function TallyBy(cs: seq<Contribution>, keyOf: Contribution -> string): Tally
  {
    if cs == [] then []
    else
      var c := cs[|cs| - 1];
      Add(TallyBy(cs[..|cs| - 1], keyOf), keyOf(c), AmountOf(c))
  }

  function KeyIs(keyOf: Contribution -> string, key: string): Contribution -> bool
  {
    (c: Contribution) => keyOf(c) == key
  }

  /** A tally has one entry per distinct key. */
  lemma {:induction false} TallyDistinct(cs: seq<Contribution>, keyOf: Contribution -> string)
    ensures Seqs.NoDuplicates(Keys(TallyBy(cs, keyOf)))
  {
    if cs != [] {
      var init, c := cs[..|cs| - 1], cs[|cs| - 1];
      var t := TallyBy(init, keyOf);
      TallyDistinct(init, keyOf);
      AddKeys(t, keyOf(c), AmountOf(c));
      if keyOf(c) !in Keys(t) {
        AppendDistinct(Keys(t), keyOf(c));
      }
    }
  }

  /** A key is present in a tally exactly when some contribution has it. */
  lemma {:induction false} TallyHasKey(cs: seq<Contribution>, keyOf: Contribution -> string, key: string)
    ensures key in Keys(TallyBy(cs, keyOf)) <==> exists c :: c in cs && keyOf(c) == key
  {
    if cs != [] {
      var init, c := cs[..|cs| - 1], cs[|cs| - 1];
      assert cs == init + [c];
      var t := TallyBy(init, keyOf);
      TallyHasKey(init, keyOf, key);
      AddKeys(t, keyOf(c), AmountOf(c));
      assert key in Keys(TallyBy(cs, keyOf)) <==> key in Keys(t) || key == keyOf(c);
      assert forall d :: d in cs <==> d in init || d == c;
    }
  }

  /** The entries of a tally add up to the overall total. */
  lemma {:induction false} TallyTotal(cs: seq<Contribution>, keyOf: Contribution -> string)
    ensures Total(TallyBy(cs, keyOf)) == Overall(cs)
  {
    if cs != [] {
      var init, c := cs[..|cs| - 1], cs[|cs| - 1];
      TallyTotal(init, keyOf);
      AddTotal(TallyBy(init, keyOf), keyOf(c), AmountOf(c));
    }
  }

  /** A key's total is the sum of the amounts of the contributions with that key, 0 when there are none. */
  lemma {:induction false} TallyGet(cs: seq<Contribution>, keyOf: Contribution -> string, key: string)
    ensures Get(TallyBy(cs, keyOf), key).OrElse(0) == Overall(Seqs.Filter(cs, KeyIs(keyOf, key)))
  {
    if cs != [] {
      var init, c := cs[..|cs| - 1], cs[|cs| - 1];
      assert cs == init + [c];
      TallyGet(init, keyOf, key);
      AddGet(TallyBy(init, keyOf), keyOf(c), AmountOf(c), key);
      Seqs.FilterAppend(init, c, KeyIs(keyOf, key));
      if KeyIs(keyOf, key)(c) {
        OverallAppend(Seqs.Filter(init, KeyIs(keyOf, key)), c);
      }
    }
  }

  // ---------------------------------------------------------------------------
  // The summary

  function MonthOf(monthKey: string -> string): Contribution -> string
  {
    (c: Contribution) => monthKey(c.date)
  }

  /** `contribution.fundId ?? 'general'`. */
  function FundKey(c: Contribution): string
  {
    if c.fundId.Some? then c.fundId.value else GeneralKey
  }

  /** `new Map(funds.map(f => [f.id, f.name])).get(id)`: a later fund with the same id wins. */
  function FundName(funds: seq<Fund>, id: string): Option<string>
  {
    if funds == [] then None
    else if funds[|funds| - 1].id == id then Some(funds[|funds| - 1].name)
    else FundName(funds[..|funds| - 1], id)
  }

  /** One `byFund` entry: the general key becomes a null fund named General. */
  function FundLineOf(entry: (string, int), funds: seq<Fund>): (line: FundLine)
    ensures line.amount == entry.1
    ensures entry.0 == GeneralKey ==> line.fundId.None? && line.name == "General"
    ensures entry.0 != GeneralKey ==> line.fundId == Some(entry.0)
  {
    if entry.0 == GeneralKey then FundLine(None, "General", entry.1)
    else FundLine(Some(entry.0), FundName(funds, entry.0).OrElse(entry.0), entry.1)
  }

  function ByFund(t: Tally, funds: seq<Fund>): (lines: seq<FundLine>)
    ensures |lines| == |t|
    ensures forall i :: 0 <= i < |t| ==> lines[i] == FundLineOf(t[i], funds)
  {
    if t == [] then [] else [FundLineOf(t[0], funds)] + ByFund(t[1..], funds)
  }

  function FundSum(lines: seq<FundLine>): int
  {
    if lines == [] then 0 else lines[0].amount + FundSum(lines[1..])
  }

  function MonthLines(t: Tally): (lines: seq<MonthLine>)
    ensures |lines| == |t|
    ensures forall i :: 0 <= i < |t| ==> lines[i] == MonthLine(t[i].0, t[i].1)
  {
    if t == [] then [] else [MonthLine(t[0].0, t[0].1)] + MonthLines(t[1..])
  }

  function MonthSortKey(m: MonthLine): Sorting.SortKey
  {
    Sorting.Text(m.month)
  }

  /** `.sort((a, b) => a.month < b.month ? 1 : -1).slice(0, 6)`. */
  function Monthly(t: Tally): seq<MonthLine>
  {
    JsString.Slice(Sorting.SortBy(MonthLines(t), MonthSortKey, true), 0, MonthsShown)
  }

  /** `overall / count`, or 0 without contributions. */
  function AverageGift(overall: int, count: nat): (avg: real)
    ensures count == 0 ==> avg == 0.0
    ensures count > 0 ==> avg * count as real == overall as real
  {
    if count > 0 then overall as real / count as real else 0.0
  }

  /** The four totals: the overall sum, this and last month's sums, and the average gift. */
  function TotalsOf(cs: seq<Contribution>, monthKey: string -> string, currentMonth: string, previousMonth: string): Totals
  {
    var months := TallyBy(cs, MonthOf(monthKey));
    var overall := Overall(cs);
    Totals(overall, Get(months, currentMonth).OrElse(0), Get(months, previousMonth).OrElse(0), AverageGift(overall, |cs|))
  }

  /** The summary of the contributions it is given, none of them excluded. */
  function SummaryOf(cs: seq<Contribution>, funds: seq<Fund>, monthKey: string -> string, currentMonth: string, previousMonth: string): Summary
  {
    Summary(TotalsOf(cs, monthKey, currentMonth, previousMonth), ByFund(TallyBy(cs, FundKey), funds), Monthly(TallyBy(cs, MonthOf(monthKey))))
  }

  /** The `for` loop and the construction of the result, shared by both summaries. */
  method Summarize(cs: seq<Contribution>, funds: seq<Fund>, monthKey: string -> string, currentMonth: string, previousMonth: string)
    returns (s: Summary)
    ensures s == SummaryOf(cs, funds, monthKey, currentMonth, previousMonth)
  {
    var overall := 0;
    var monthTotals: Tally := [];
    var fundTotals: Tally := [];
    var i := 0;
    while i < |cs|
      invariant 0 <= i <= |cs|
      invariant overall == Overall(cs[..i])
      invariant monthTotals == TallyBy(cs[..i], MonthOf(monthKey))
      invariant fundTotals == TallyBy(cs[..i], FundKey)
    {
      var c := cs[i];
      var amount := AmountOf(c);
      overall := overall + amount;
      var key := monthKey(c.date);
      monthTotals := Add(monthTotals, key, amount);
      var fundKey := if c.fundId.Some? then c.fundId.value else GeneralKey;
      fundTotals := Add(fundTotals, fundKey, amount);
      assert cs[..i + 1][..i] == cs[..i];
      i := i + 1;
    }
    assert cs[..|cs|] == cs;
    var totals := Totals(overall, Get(monthTotals, currentMonth).OrElse(0), Get(monthTotals, previousMonth).OrElse(0),
                         if |cs| > 0 then overall as real / |cs| as real else 0.0);
    s := Summary(totals, ByFund(fundTotals, funds), Monthly(monthTotals));
  }

  /** `!c.deletedAt`. */
  predicate Active(c: Contribution)
  {
    !AuditLogs.Truthy(c.deletedAt)
  }

  function IsActive(): Contribution -> bool
  {
    (c: Contribution) => Active(c)
  }

  /** `calculateGivingSummary`: the summary of the contributions that are not archived. */
  method CalculateGivingSummary(contributions: seq<Contribution>, funds: seq<Fund>, monthKey: string -> string, currentMonth: string, previousMonth: string)
    returns (s: Summary)
    ensures s == SummaryOf(Seqs.Filter(contributions, IsActive()), funds, monthKey, currentMonth, previousMonth)
  {
    var active := Seqs.Filter(contributions, IsActive());
    s := Summarize(active, funds, monthKey, currentMonth, previousMonth);
  }

  // ---------------------------------------------------------------------------
  // Properties of the summary

  /** This and last month's totals are the sums over the contributions of those months, 0 when there are none. */
  lemma MonthTotals(cs: seq<Contribution>, monthKey: string -> string, currentMonth: string, previousMonth: string)
    ensures var s := TotalsOf(cs, monthKey, currentMonth, previousMonth);
            && s.monthToDate == Overall(Seqs.Filter(cs, KeyIs(MonthOf(monthKey), currentMonth)))
            && s.previousMonth == Overall(Seqs.Filter(cs, KeyIs(MonthOf(monthKey), previousMonth)))
  {
    var months := TallyBy(cs, MonthOf(monthKey));
    TallyGet(cs, MonthOf(monthKey), currentMonth);
    TallyGet(cs, MonthOf(monthKey), previousMonth);
    assert TotalsOf(cs, monthKey, currentMonth, previousMonth).monthToDate == Get(months, currentMonth).OrElse(0);
    assert TotalsOf(cs, monthKey, currentMonth, previousMonth).previousMonth == Get(months, previousMonth).OrElse(0);
  }

  lemma {:induction false} FundSumIsTotal(t: Tally, funds: seq<Fund>)
    ensures FundSum(ByFund(t, funds)) == Total(t)
  {
    if t != [] {
      FundSumIsTotal(t[1..], funds);
      assert ByFund(t, funds)[1..] == ByFund(t[1..], funds);
    }
  }

  /**
   * The fund lines add up to the overall total and name each fund once:
   * one line per distinct fund key, a contribution without a fund counted
   * under the General line with a null fund id.
   */
  lemma ByFundFacts(cs: seq<Contribution>, funds: seq<Fund>)
    ensures var lines := ByFund(TallyBy(cs, FundKey), funds);
            && FundSum(lines) == Overall(cs)
            && (forall i, j :: 0 <= i < j < |lines| ==> lines[i].fundId != lines[j].fundId)
            && (forall i :: 0 <= i < |lines| && lines[i].fundId.None? ==> lines[i].name == "General")
  {
    var t := TallyBy(cs, FundKey);
    TallyDistinct(cs, FundKey);
    TallyTotal(cs, FundKey);
    FundSumIsTotal(t, funds);
    var lines := ByFund(t, funds);
    forall i, j | 0 <= i < j < |lines| ensures lines[i].fundId != lines[j].fundId {
      assert Keys(t)[i] != Keys(t)[j];
    }
  }

  /** A fund line's total is the sum over the contributions with that fund key. */
  lemma FundLineAmount(cs: seq<Contribution>, funds: seq<Fund>, i: nat)
    requires i < |TallyBy(cs, FundKey)|
    ensures ByFund(TallyBy(cs, FundKey), funds)[i].amount
              == Overall(Seqs.Filter(cs, KeyIs(FundKey, TallyBy(cs, FundKey)[i].0)))
  {
    var t := TallyBy(cs, FundKey);
    var key := t[i].0;
    TallyGet(cs, FundKey, key);
    TallyDistinct(cs, FundKey);
    DistinctGet(t, i);
  }

  /** In a tally with distinct keys, looking an entry's key up finds that entry. */
  lemma {:induction false} DistinctGet(t: Tally, i: nat)
    requires i < |t| && Seqs.NoDuplicates(Keys(t))
    ensures Get(t, t[i].0) == Some(t[i].1)
  {
    if i > 0 {
      assert Keys(t) == [t[0].0] + Keys(t[1..]);
      assert Keys(t)[0] != Keys(t)[i];
      DistinctGet(t[1..], i - 1);
    }
  }

  /** Sorted month lines with distinct months are in strictly descending month order. */
  lemma StrictlyDescending(s: seq<MonthLine>)
    requires Sorting.Sorted(s, MonthSortKey, true)
    requires forall i, j :: 0 <= i < j < |s| ==> s[i].month != s[j].month
    ensures forall i, j :: 0 <= i < j < |s| ==> Sorting.TextLess(s[j].month, s[i].month)
  {
    forall i, j | 0 <= i < j < |s| ensures Sorting.TextLess(s[j].month, s[i].month) {
      assert !Sorting.Before(MonthSortKey, true, s[j], s[i]);
      Sorting.TextLessTotal(s[i].month, s[j].month);
    }
  }

  /** Month lines of a tally with distinct keys, in any order, have distinct months. */
  lemma PermutedMonthsDistinct(t: Tally, a: seq<MonthLine>)
    requires Seqs.NoDuplicates(Keys(t)) && multiset(a) == multiset(MonthLines(t))
    ensures forall i, j :: 0 <= i < j < |a| ==> a[i].month != a[j].month
  {
    var lines := MonthLines(t);
    forall p, q | 0 <= p < q < |lines| ensures lines[p].month != lines[q].month {
      assert Keys(t)[p] != Keys(t)[q];
    }
    DistinctMonthsPermuted(a, lines);
  }

  /** A reordering of month lines with distinct months has distinct months. */
  lemma DistinctMonthsPermuted(a: seq<MonthLine>, lines: seq<MonthLine>)
    requires multiset(a) == multiset(lines)
    requires forall p, q :: 0 <= p < q < |lines| ==> lines[p].month != lines[q].month
    ensures forall i, j :: 0 <= i < j < |a| ==> a[i].month != a[j].month
  {
    Seqs.NoDuplicatesPermutation(a, lines);
    forall i, j | 0 <= i < j < |a| ensures a[i].month != a[j].month {
      assert a[i] in multiset(lines) && a[j] in multiset(lines);
      var p :| 0 <= p < |lines| && lines[p] == a[i];
      var q :| 0 <= q < |lines| && lines[q] == a[j];
    }
  }

  /** Month lines strictly newest first, by the month key's text. */
  ghost predicate NewestFirst(m: seq<MonthLine>)
  {
    forall i, j :: 0 <= i < j < |m| ==> Sorting.TextLess(m[j].month, m[i].month)
  }

  /** Every month line carries the total of the contributions of its month. */
  ghost predicate CarriesTotals(m: seq<MonthLine>, cs: seq<Contribution>, keyOf: Contribution -> string)
  {
    forall i :: 0 <= i < |m| ==> m[i].amount == Overall(Seqs.Filter(cs, KeyIs(keyOf, m[i].month)))
  }

  /**
   * The trend shows at most six months, each once, newest first (by the
   * month key's text), each with the total of the contributions of that month.
   */
  lemma MonthlyFacts(cs: seq<Contribution>, monthKey: string -> string)
    ensures var m := Monthly(TallyBy(cs, MonthOf(monthKey)));
            |m| <= MonthsShown && NewestFirst(m) && CarriesTotals(m, cs, MonthOf(monthKey))
  {
    var t := TallyBy(cs, MonthOf(monthKey));
    var sorted := Sorting.SortBy(MonthLines(t), MonthSortKey, true);
    var m := Monthly(t);
    JsString.SliceItems(sorted, 0, MonthsShown, m);
    SortedMonthsDescending(cs, monthKey, t, sorted);
    SortedMonthAmounts(cs, monthKey, t, sorted);
    WindowOfMonths(m, sorted, cs, MonthOf(monthKey));
  }

  /** The first months of newest-first month lines with their totals are newest first with their totals. */
  lemma WindowOfMonths(m: seq<MonthLine>, sorted: seq<MonthLine>, cs: seq<Contribution>, keyOf: Contribution -> string)
    requires JsString.IsWindow(m, sorted, 0, MonthsShown)
    requires NewestFirst(sorted) && CarriesTotals(sorted, cs, keyOf)
    ensures |m| <= MonthsShown && NewestFirst(m) && CarriesTotals(m, cs, keyOf)
  {
    forall i | 0 <= i < |m| ensures i < |sorted| && m[i] == sorted[i] {
      assert m[i] in m;
    }
  }

  /** The sorted month lines of a tally are in strictly descending month order. */
  lemma SortedMonthsDescending(cs: seq<Contribution>, monthKey: string -> string, t: Tally, sorted: seq<MonthLine>)
    requires t == TallyBy(cs, MonthOf(monthKey))
    requires sorted == Sorting.SortBy(MonthLines(t), MonthSortKey, true)
    ensures NewestFirst(sorted)
  {
    TallyDistinct(cs, MonthOf(monthKey));
    PermutedMonthsDistinct(t, sorted);
    StrictlyDescending(sorted);
  }

  /** Each sorted month line carries the total of the contributions of its month. */
  lemma SortedMonthAmounts(cs: seq<Contribution>, monthKey: string -> string, t: Tally, sorted: seq<MonthLine>)
    requires t == TallyBy(cs, MonthOf(monthKey))
    requires sorted == Sorting.SortBy(MonthLines(t), MonthSortKey, true)
    ensures CarriesTotals(sorted, cs, MonthOf(monthKey))
  {
    TallyDistinct(cs, MonthOf(monthKey));
    var lines := MonthLines(t);
    forall i | 0 <= i < |sorted| ensures sorted[i].amount == Overall(Seqs.Filter(cs, KeyIs(MonthOf(monthKey), sorted[i].month))) {
      assert sorted[i] in multiset(lines);
      var k :| 0 <= k < |lines| && lines[k] == sorted[i];
      DistinctGet(t, k);
      TallyGet(cs, MonthOf(monthKey), sorted[i].month);
    }
  }

  /** Archived contributions are left out of every figure: adding one changes nothing. */
  lemma ArchivedIgnored(cs: seq<Contribution>, c: Contribution)
    requires !Active(c)
    ensures Seqs.Filter(cs + [c], IsActive()) == Seqs.Filter(cs, IsActive())
  {
    Seqs.FilterAppend(cs, c, IsActive());
  }

  /** Whatever the input, the figures are computed from active contributions only. */
  lemma OnlyActiveCounted(cs: seq<Contribution>)
    ensures forall k :: 0 <= k < |Seqs.Filter(cs, IsActive())| ==> Active(Seqs.Filter(cs, IsActive())[k])
    ensures (forall k :: 0 <= k < |cs| ==> Active(cs[k])) ==> Seqs.Filter(cs, IsActive()) == cs
  {
    Seqs.FilterIsSubsequence(cs, IsActive());
  }
}
