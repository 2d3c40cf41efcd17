/** The dashboard of app/routes/_index.tsx: totals and balance over every
    contribution and expense, the five newest deceased and contributions,
    the pending and overdue counts, the balance colour and icon, and the
    two charts drawn from the five newest contributions. The clock and the
    calendar month of a date are parameters. */
module Dashboard {
  import opened Optional
  import opened Seqs
  import opened Records
  import opened Lookups

  /** How many newest records the dashboard lists. */
  const RecentCount: nat := 5
  const DayMillis: int := 86400000
  /** A contribution dated before this many days ago is overdue. */
  const OverdueDays: int := 30

  function ContributionAmount(c: Contribution): int { c.amount }
  function ExpenseAmount(e: Expense): int { e.amount }

  /** The money figures the dashboard and the reports page show. */
  datatype Totals = Totals(contributions: int, expenses: int, balance: int)

  /** `contributions.reduce(sum + amount)`, the same over expenses, and
      their difference. */
  function TotalsOf(contributions: seq<Contribution>, expenses: seq<Expense>): Totals {
    var income := SumBy(contributions, ContributionAmount);
    var spent := SumBy(expenses, ExpenseAmount);
    Totals(income, spent, income - spent)
  }

  /** A new contribution raises the income and the balance by its amount;
      a new expense raises the spending and lowers the balance by its amount. */
  lemma TotalsAfterRecording(cs: seq<Contribution>, es: seq<Expense>, c: Contribution, e: Expense)
    ensures TotalsOf(cs + [c], es).contributions == TotalsOf(cs, es).contributions + c.amount
    ensures TotalsOf(cs + [c], es).balance == TotalsOf(cs, es).balance + c.amount
    ensures TotalsOf(cs, es + [e]).expenses == TotalsOf(cs, es).expenses + e.amount
    ensures TotalsOf(cs, es + [e]).balance == TotalsOf(cs, es).balance - e.amount
  {
    SumByAppend(cs, [c], ContributionAmount);
    SumByAppend(es, [e], ExpenseAmount);
  }

  /** The totals depend on which records there are, not on their order. */
  lemma TotalsOrderFree(cs: seq<Contribution>, es: seq<Expense>, cs': seq<Contribution>, es': seq<Expense>)
    requires multiset(cs) == multiset(cs') && multiset(es) == multiset(es')
    ensures TotalsOf(cs, es) == TotalsOf(cs', es')
  {
    SumByPermutation(cs, cs', ContributionAmount);
    SumByPermutation(es, es', ExpenseAmount);
  }

  datatype DashboardStats = DashboardStats(
    totalDeceased: nat,
    totalContributors: nat,
    totals: Totals,
    recentDeceased: seq<Deceased>,
    recentContributions: seq<Contribution>,
    pendingDeceased: nat,
    overdueContributions: nat)

  function IsPending(d: Deceased): bool { d.status == Pending }

  function DatedBefore(cutoff: int): Contribution -> bool { (c: Contribution) => c.date < cutoff }

  /** The overdue cut-off: thirty days before now. */
  function OverdueCutoff(now: int): int { now - OverdueDays * DayMillis }

  /** `loadDashboardData`, given what the four getters return and the
      clock. Sorting newest first happens in place on the fetched arrays,
      so the pending and overdue counts are taken over the sorted lists. */
  function LoadDashboard(stores: Stores, now: int): DashboardStats {
    var totals := TotalsOf(stores.contributions, stores.expenses);
    var deceased := SortDesc(stores.deceased, DeceasedCreatedAt);
    var contributions := SortDesc(stores.contributions, ContributionDate);
    DashboardStats(
      |deceased|,
      |stores.contributors|,
      totals,
      Take(deceased, RecentCount),
      Take(contributions, RecentCount),
      Count(deceased, IsPending),
      Count(contributions, DatedBefore(OverdueCutoff(now))))
  }

  /** The counts come out as over the lists in the order they were fetched:
      the in-place sort only reorders them. */
  lemma DashboardCounts(stores: Stores, now: int)
    ensures LoadDashboard(stores, now).totalDeceased == |stores.deceased|
    ensures LoadDashboard(stores, now).pendingDeceased == Count(stores.deceased, IsPending)
    ensures LoadDashboard(stores, now).overdueContributions
            == Count(stores.contributions, DatedBefore(OverdueCutoff(now)))
    ensures LoadDashboard(stores, now).pendingDeceased <= |stores.deceased|
    ensures LoadDashboard(stores, now).overdueContributions <= |stores.contributions|
  {
    SortDescSpec(stores.deceased, DeceasedCreatedAt);
    SortDescSpec(stores.contributions, ContributionDate);
    assert |SortDesc(stores.deceased, DeceasedCreatedAt)| == |multiset(stores.deceased)|;
    CountPermutation(SortDesc(stores.deceased, DeceasedCreatedAt), stores.deceased, IsPending);
    CountPermutation(SortDesc(stores.contributions, ContributionDate), stores.contributions,
      DatedBefore(OverdueCutoff(now)));
  }

  /** The recent deceased are the five newest (all of them when there are
      fewer), newest first, and no deceased left out was created later than
      one listed. */
  lemma RecentDeceasedNewest(stores: Stores, now: int)
    ensures |LoadDashboard(stores, now).recentDeceased|
      == if |stores.deceased| < RecentCount then |stores.deceased| else RecentCount
    ensures SortedDesc(LoadDashboard(stores, now).recentDeceased, DeceasedCreatedAt)
    ensures multiset(LoadDashboard(stores, now).recentDeceased) <= multiset(stores.deceased)
    ensures forall x, y :: (x in LoadDashboard(stores, now).recentDeceased
      && y in multiset(stores.deceased) - multiset(LoadDashboard(stores, now).recentDeceased)
      ==> y.createdAt <= x.createdAt)
  {
    var recent := LoadDashboard(stores, now).recentDeceased;
    TopByKey(stores.deceased, DeceasedCreatedAt, RecentCount);
    forall x, y | x in recent && y in multiset(stores.deceased) - multiset(recent)
      ensures y.createdAt <= x.createdAt
    {
      assert DeceasedCreatedAt(y) <= DeceasedCreatedAt(x);
    }
  }

  /** The recent contributions are the five latest by date, latest first,
      and none left out is dated after one listed. */
  lemma RecentContributionsNewest(stores: Stores, now: int)
    ensures |LoadDashboard(stores, now).recentContributions|
      == if |stores.contributions| < RecentCount then |stores.contributions| else RecentCount
    ensures SortedDesc(LoadDashboard(stores, now).recentContributions, ContributionDate)
    ensures multiset(LoadDashboard(stores, now).recentContributions) <= multiset(stores.contributions)
    ensures forall x, y :: (x in LoadDashboard(stores, now).recentContributions
      && y in multiset(stores.contributions) - multiset(LoadDashboard(stores, now).recentContributions)
      ==> y.date <= x.date)
  {
    var recent := LoadDashboard(stores, now).recentContributions;
    TopByKey(stores.contributions, ContributionDate, RecentCount);
    forall x, y | x in recent && y in multiset(stores.contributions) - multiset(recent)
      ensures y.date <= x.date
    {
      assert ContributionDate(y) <= ContributionDate(x);
    }
  }

  /** The dashboard's numbers do not depend on the order the getters return
      records in. */
  lemma DashboardOrderFree(stores: Stores, other: Stores, now: int)
    requires multiset(stores.deceased) == multiset(other.deceased)
    requires multiset(stores.contributions) == multiset(other.contributions)
    requires multiset(stores.expenses) == multiset(other.expenses)
    requires |stores.contributors| == |other.contributors|
    ensures LoadDashboard(stores, now).totals == LoadDashboard(other, now).totals
    ensures LoadDashboard(stores, now).totalDeceased == LoadDashboard(other, now).totalDeceased
    ensures LoadDashboard(stores, now).pendingDeceased == LoadDashboard(other, now).pendingDeceased
    ensures LoadDashboard(stores, now).overdueContributions == LoadDashboard(other, now).overdueContributions
  {
    TotalsOrderFree(stores.contributions, stores.expenses, other.contributions, other.expenses);
    DashboardCounts(stores, now);
    DashboardCounts(other, now);
    assert |stores.deceased| == |multiset(other.deceased)|;
    CountPermutation(stores.deceased, other.deceased, IsPending);
    CountPermutation(stores.contributions, other.contributions, DatedBefore(OverdueCutoff(now)));
  }

  // ---------------------------------------------------------------------
  // Balance colour and icon

  datatype Trend = TrendingUp | TrendingDown

  /** `getBalanceColor`. */
  function BalanceColor(balance: int): string {
    if balance >= 0 then "text-green-600" else "text-red-600"
  }

  /** `getBalanceIcon`. */
  function BalanceIcon(balance: int): Trend {
    if balance >= 0 then TrendingUp else TrendingDown
  }

  /** A balance of zero or more shows green with the rising icon, a deficit
      red with the falling one; colour and icon always agree. */
  lemma BalanceSignShown(balance: int)
    ensures BalanceColor(balance) == "text-green-600" <==> balance >= 0
    ensures BalanceColor(balance) == "text-red-600" <==> balance < 0
    ensures BalanceIcon(balance) == TrendingUp <==> BalanceColor(balance) == "text-green-600"
  {
  }

  // ---------------------------------------------------------------------
  // Monthly contributions chart

  /** `Math.max(0, currentMonth - 5)`: the first month the chart shows. */
  function WindowStart(current: int): int {
    if current - 5 > 0 then current - 5 else 0
  }

  /** The contribution falls in the chart's bar k: its month number, as
      `getMonth()` gives it and whatever the year, lies between the window
      start and the current month, k months after the start. */
  function InBar(monthOf: int -> int, current: int, k: int): Contribution -> bool {
    (c: Contribution) =>
      WindowStart(current) <= monthOf(c.date) <= current && monthOf(c.date) - WindowStart(current) == k
  }

  function InWindow(monthOf: int -> int, current: int): Contribution -> bool {
    (c: Contribution) => WindowStart(current) <= monthOf(c.date) <= current
  }

  /** The amount bar k shows. */
  function BarTotal(cs: seq<Contribution>, monthOf: int -> int, current: int, k: int): int {
    SumBy(Filter(cs, InBar(monthOf, current, k)), ContributionAmount)
  }

  /** One more contribution adds its amount to the bar of its month, when
      that month is in the window, and to no other bar. */
  lemma BarStep(cs: seq<Contribution>, monthOf: int -> int, current: int, k: int)
    requires cs != []
    ensures BarTotal(cs, monthOf, current, k)
      == BarTotal(cs[..|cs| - 1], monthOf, current, k)
         + (if WindowStart(current) <= monthOf(cs[|cs| - 1].date) <= current
              && k == monthOf(cs[|cs| - 1].date) - WindowStart(current) then cs[|cs| - 1].amount else 0)
  {
    var front, c, p := cs[..|cs| - 1], cs[|cs| - 1], InBar(monthOf, current, k);
    FrontAndLast(cs);
    FilterAppend(front, [c], p);
    SumByAppend(Filter(front, p), Filter([c], p), ContributionAmount);
  }

  /** The six bars after the given contributions, added in one at a time. */
  ghost function Tallied(cs: seq<Contribution>, monthOf: int -> int, current: int): (bars: seq<int>)
    ensures |bars| == 6
  {
    if cs == [] then [0, 0, 0, 0, 0, 0]
    else
      var prev, c := Tallied(cs[..|cs| - 1], monthOf, current), cs[|cs| - 1];
      var month := monthOf(c.date);
      if WindowStart(current) <= month <= current then
        prev[month - WindowStart(current) := prev[month - WindowStart(current)] + c.amount]
      else prev
  }

  /** Adding the contributions in one at a time gives every bar its total. */
  lemma {:induction false} TalliedBars(cs: seq<Contribution>, monthOf: int -> int, current: int)
    ensures forall k :: 0 <= k < 6 ==> Tallied(cs, monthOf, current)[k] == BarTotal(cs, monthOf, current, k)
  {
    if cs == [] {
      forall k | 0 <= k < 6 ensures BarTotal(cs, monthOf, current, k) == 0 {
        assert Filter(cs, InBar(monthOf, current, k)) == [];
      }
    } else {
      TalliedBars(cs[..|cs| - 1], monthOf, current);
      forall k | 0 <= k < 6 ensures Tallied(cs, monthOf, current)[k] == BarTotal(cs, monthOf, current, k) {
        BarStep(cs, monthOf, current, k);
      }
    }
  }

  /** `monthlyContributions`: six bars filled by one pass over the shown
      contributions, each adding its amount to the bar of its month. Every
      index written lies in 0..5. */
  method MonthlyContributions(recent: seq<Contribution>, monthOf: int -> int, current: int)
    returns (bars: array<int>)
    ensures fresh(bars) && bars.Length == 6
    ensures forall k :: 0 <= k < 6 ==> bars[k] == BarTotal(recent, monthOf, current, k)
  {
    bars := new int[6](_ => 0);
    var i := 0;
    while i < |recent|
      invariant 0 <= i <= |recent|
      invariant bars[..] == Tallied(recent[..i], monthOf, current)
    {
      var month := monthOf(recent[i].date);
      var monthIndex := WindowStart(current);
      if month >= monthIndex && month <= current {
        bars[month - monthIndex] := bars[month - monthIndex] + recent[i].amount;
      }
      assert recent[..i + 1][..i] == recent[..i];
      i := i + 1;
    }
    AllPrefix(recent);
    TalliedBars(recent, monthOf, current);
  }

  /** The sum over a filter, one element at a time. */
  lemma FilteredSumFirst(cs: seq<Contribution>, p: Contribution -> bool)
    requires cs != []
    ensures SumBy(Filter(cs, p), ContributionAmount)
      == (if p(cs[0]) then cs[0].amount else 0) + SumBy(Filter(cs[1..], p), ContributionAmount)
  {
    SumByAppend(if p(cs[0]) then [cs[0]] else [], Filter(cs[1..], p), ContributionAmount);
  }

  /** The six bars together hold exactly the amounts of the shown
      contributions whose month lies in the window. */
  lemma {:induction false} BarsCover(cs: seq<Contribution>, monthOf: int -> int, current: int)
    ensures BarTotal(cs, monthOf, current, 0) + BarTotal(cs, monthOf, current, 1)
      + BarTotal(cs, monthOf, current, 2) + BarTotal(cs, monthOf, current, 3)
      + BarTotal(cs, monthOf, current, 4) + BarTotal(cs, monthOf, current, 5)
      == SumBy(Filter(cs, InWindow(monthOf, current)), ContributionAmount)
  {
    if cs != [] {
      BarsCover(cs[1..], monthOf, current);
      FilteredSumFirst(cs, InWindow(monthOf, current));
      var c := cs[0];
      forall k | 0 <= k < 6
        ensures BarTotal(cs, monthOf, current, k)
          == (if InBar(monthOf, current, k)(c) then c.amount else 0) + BarTotal(cs[1..], monthOf, current, k)
      {
        FilteredSumFirst(cs, InBar(monthOf, current, k));
      }
      var m := monthOf(c.date) - WindowStart(current);
      assert InWindow(monthOf, current)(c) ==> 0 <= m < 6 && InBar(monthOf, current, m)(c);
      assert forall k :: InBar(monthOf, current, k)(c) ==> k == m && InWindow(monthOf, current)(c);
    }
  }

  /** While fewer than six months of the year have begun, the bars after
      the current month stay empty. */
  lemma BarsAfterCurrentEmpty(cs: seq<Contribution>, monthOf: int -> int, current: int, k: int)
    requires WindowStart(current) + k > current
    ensures BarTotal(cs, monthOf, current, k) == 0
  {
    FilterNone(cs, InBar(monthOf, current, k));
  }

  // ---------------------------------------------------------------------
  // Religion chart

  /** `list?.find(c => c.id === contribution.contributorId)`: the
      contributor of a contribution, looked up in a list that may be
      undefined. */
  function ContributorOf(c: Contribution, lookup: Option<seq<Contributor>>): (r: Option<Contributor>)
    ensures lookup.None? ==> r.None?
    ensures r.Some? ==> r.value.id == c.contributorId && r.value in lookup.value
  {
    if lookup.None? then None else Find(lookup.value, ContributorWithId(c.contributorId))
  }

  /** `religionData`: the reduce over the shown contributions that counts,
      per religion, the contributions whose contributor is found. */
  function ReligionTally(recent: seq<Contribution>, lookup: Option<seq<Contributor>>): map<Religion, nat>
    decreases |recent|
  {
    if recent == [] then map[]
    else
      var acc := ReligionTally(recent[..|recent| - 1], lookup);
      match ContributorOf(recent[|recent| - 1], lookup)
      case None => acc
      case Some(p) => acc[p.religion := TallyOf(acc, p.religion) + 1]
  }

  function HasReligion(lookup: Option<seq<Contributor>>, r: Religion): Contribution -> bool {
    (c: Contribution) => ContributorOf(c, lookup).Some? && ContributorOf(c, lookup).value.religion == r
  }

  function HasContributor(lookup: Option<seq<Contributor>>): Contribution -> bool {
    (c: Contribution) => ContributorOf(c, lookup).Some?
  }

  /** A religion's slice counts the contributions whose contributor is
      found with that religion, and the religion has a slice exactly when
      that count is not zero. */
  lemma {:induction false} ReligionTallyCounts(recent: seq<Contribution>, lookup: Option<seq<Contributor>>, r: Religion)
    ensures TallyOf(ReligionTally(recent, lookup), r) == Count(recent, HasReligion(lookup, r))
    ensures r in ReligionTally(recent, lookup) <==> Count(recent, HasReligion(lookup, r)) > 0
    decreases |recent|
  {
    if recent != [] {
      var front, last := recent[..|recent| - 1], recent[|recent| - 1];
      ReligionTallyCounts(front, lookup, r);
      FrontAndLast(recent);
      CountAppend(front, [last], HasReligion(lookup, r));
      assert Filter([last], HasReligion(lookup, r)) == (if HasReligion(lookup, r)(last) then [last] else []);
    }
  }

  /** Every contribution whose contributor is found lands in exactly one slice. */
  lemma {:induction false} ReligionSlicesCover(recent: seq<Contribution>, lookup: Option<seq<Contributor>>)
    ensures Count(recent, HasReligion(lookup, Christian)) + Count(recent, HasReligion(lookup, Muslim))
      + Count(recent, HasReligion(lookup, OtherReligion)) == Count(recent, HasContributor(lookup))
  {
    if recent != [] {
      ReligionSlicesCover(recent[1..], lookup);
      CountFirst(recent, HasReligion(lookup, Christian));
      CountFirst(recent, HasReligion(lookup, Muslim));
      CountFirst(recent, HasReligion(lookup, OtherReligion));
      CountFirst(recent, HasContributor(lookup));
    }
  }

  /** The chart as written: it looks contributors up in
      `stats.recentContributors`, which the dashboard state never holds, so
      the lookup list is undefined. */
  function ReligionChartAsWritten(stats: DashboardStats): map<Religion, nat> {
    ReligionTally(stats.recentContributions, None)
  }

  /** As written the religion chart is always empty. */
  lemma {:induction false} ReligionChartAsWrittenEmpty(stats: DashboardStats)
    ensures ReligionChartAsWritten(stats) == map[]
  {
    forall r ensures r !in ReligionChartAsWritten(stats) {
      ReligionTallyCounts(stats.recentContributions, None, r);
      FilterNone(stats.recentContributions, HasReligion(None, r));
    }
    assert ReligionChartAsWritten(stats).Keys == {};
  }

  /** The chart as intended: contributors are looked up in the contributor
      list the dashboard loads. */
  function ReligionChart(stats: DashboardStats, contributors: seq<Contributor>): map<Religion, nat> {
    ReligionTally(stats.recentContributions, Some(contributors))
  }

  /** Each slice counts the shown contributions made by a contributor of
      that religion, no slice is zero, and the slices add up to the shown
      contributions whose contributor is on file. */
  lemma ReligionChartCounts(stats: DashboardStats, contributors: seq<Contributor>)
    ensures forall r :: (TallyOf(ReligionChart(stats, contributors), r)
      == Count(stats.recentContributions, HasReligion(Some(contributors), r)))
    ensures forall r :: r in ReligionChart(stats, contributors) ==> ReligionChart(stats, contributors)[r] > 0
    ensures TallyOf(ReligionChart(stats, contributors), Christian) + TallyOf(ReligionChart(stats, contributors), Muslim)
      + TallyOf(ReligionChart(stats, contributors), OtherReligion)
      == Count(stats.recentContributions, HasContributor(Some(contributors)))
  {
    forall r ensures TallyOf(ReligionChart(stats, contributors), r)
      == Count(stats.recentContributions, HasReligion(Some(contributors), r))
    {
      ReligionTallyCounts(stats.recentContributions, Some(contributors), r);
    }
    forall r | r in ReligionChart(stats, contributors) ensures ReligionChart(stats, contributors)[r] > 0 {
      ReligionTallyCounts(stats.recentContributions, Some(contributors), r);
    }
    ReligionSlicesCover(stats.recentContributions, Some(contributors));
  }

  /** A dashboard showing one contribution by a Christian contributor on
      file: the intended chart has one Christian slice, the written one
      shows nothing. */
  lemma ReligionChartMissesContributors()
    ensures var p := Contributor(7, "Amina", "0700", Christian, 0, false, 0, 0);
      var c := Contribution(1, 3, 7, 50, 0, None, false, 0);
      var stats := DashboardStats(0, 1, Totals(50, 0, 50), [], [c], 0, 0);
      ReligionChart(stats, [p]) == map[Christian := 1] && ReligionChartAsWritten(stats) == map[]
  {
    var p := Contributor(7, "Amina", "0700", Christian, 0, false, 0, 0);
    var c := Contribution(1, 3, 7, 50, 0, None, false, 0);
    var stats := DashboardStats(0, 1, Totals(50, 0, 50), [], [c], 0, 0);
    assert ContributorWithId(7)(p);
    assert ContributorOf(c, Some([p])) == Some(p);
    assert [c][..0] == [];
    ReligionChartAsWrittenEmpty(stats);
  }
}
