/** The reports page of app/routes/reports.tsx: the exported snapshot is
    narrowed by the filter form, the narrowed contributions are exported as
    CSV, and the narrowed contributors and deceased are tallied by religion
    and by status for the charts. The filter form's date strings arrive
    parsed to milliseconds, and the clock and the locale date format are
    parameters. */
module Reports {
  import opened Optional
  import opened Seqs
  import opened Strings
  import opened Records
  import opened Csv
  import opened Lookups
  import opened Dashboard

  /** The filter form; an empty field is None. */
  datatype Filters = Filters(
    startDate: Option<int>,
    endDate: Option<int>,
    deceasedId: Option<int>,
    contributorId: Option<int>,
    status: Option<DeceasedStatus>)

  const NoFilters: Filters := Filters(None, None, None, None, None)

  function ContributionIn(lo: int, hi: int): Contribution -> bool { (c: Contribution) => lo <= c.date <= hi }
  function ExpenseIn(lo: int, hi: int): Expense -> bool { (e: Expense) => lo <= e.date <= hi }
  function ContributionFor(id: int): Contribution -> bool { (c: Contribution) => c.deceasedId == id }
  function ExpenseFor(id: int): Expense -> bool { (e: Expense) => e.deceasedId == id }
  function ContributionFrom(id: int): Contribution -> bool { (c: Contribution) => c.contributorId == id }
  function WithStatus(st: DeceasedStatus): Deceased -> bool { (d: Deceased) => d.status == st }

  /** A date passes when no date is set, or when it lies, both ends
      included, between the start (the epoch when unset) and the end (now
      when unset). */
  predicate InPeriod(f: Filters, now: int, date: int) {
    (f.startDate.Some? || f.endDate.Some?) ==> f.startDate.GetOr(0) <= date <= f.endDate.GetOr(now)
  }

  /** What the report keeps, stated record by record. */
  predicate KeepContribution(f: Filters, now: int, c: Contribution) {
    InPeriod(f, now, c.date)
    && (f.deceasedId.Some? ==> c.deceasedId == f.deceasedId.value)
    && (f.contributorId.Some? ==> c.contributorId == f.contributorId.value)
  }

  predicate KeepExpense(f: Filters, now: int, e: Expense) {
    InPeriod(f, now, e.date) && (f.deceasedId.Some? ==> e.deceasedId == f.deceasedId.value)
  }

  predicate KeepDeceased(f: Filters, d: Deceased) {
    f.status.Some? ==> d.status == f.status.value
  }

  /** The same record-by-record tests, as arguments for Filter. */
  function ContributionFilter(f: Filters, now: int): Contribution -> bool { (c: Contribution) => KeepContribution(f, now, c) }
  function ExpenseFilter(f: Filters, now: int): Expense -> bool { (e: Expense) => KeepExpense(f, now, e) }
  function DeceasedFilter(f: Filters): Deceased -> bool { (d: Deceased) => KeepDeceased(f, d) }

  /** `applyFilters`: each filter that is set narrows the lists it applies
      to, one after the other. The result keeps exactly the records that
      pass every filter that concerns them, in their original order, and
      leaves contributors, users and settings alone: each narrowed list is
      the one-pass filter of the original by the record-by-record test. */
  method ApplyFilters(data: Snapshot, f: Filters, now: int) returns (filtered: Snapshot)
    ensures filtered.contributions == Filter(data.contributions, ContributionFilter(f, now))
    ensures filtered.expenses == Filter(data.expenses, ExpenseFilter(f, now))
    ensures filtered.deceased == Filter(data.deceased, DeceasedFilter(f))
    ensures forall c :: c in filtered.contributions <==> c in data.contributions && KeepContribution(f, now, c)
    ensures forall e :: e in filtered.expenses <==> e in data.expenses && KeepExpense(f, now, e)
    ensures forall d :: d in filtered.deceased <==> d in data.deceased && KeepDeceased(f, d)
    ensures IsSubsequence(filtered.contributions, data.contributions)
    ensures IsSubsequence(filtered.expenses, data.expenses)
    ensures IsSubsequence(filtered.deceased, data.deceased)
    ensures filtered.contributors == data.contributors && filtered.users == data.users
    ensures filtered.settings == data.settings
    ensures f == NoFilters ==> filtered == data
  {
    var contributions, expenses, deceased := data.contributions, data.expenses, data.deceased;
    if f.startDate.Some? || f.endDate.Some? {
      var lo := f.startDate.GetOr(0);
      var hi := f.endDate.GetOr(now);
      contributions := Filter(contributions, ContributionIn(lo, hi));
      expenses := Filter(expenses, ExpenseIn(lo, hi));
    }
    ghost var datedContributions, datedExpenses := contributions, expenses;
    if f.deceasedId.Some? {
      var id := f.deceasedId.value;
      contributions := Filter(contributions, ContributionFor(id));
      expenses := Filter(expenses, ExpenseFor(id));
    }
    ghost var forDeceased := contributions;
    if f.contributorId.Some? {
      var id := f.contributorId.value;
      contributions := Filter(contributions, ContributionFrom(id));
    }
    if f.status.Some? {
      deceased := Filter(deceased, WithStatus(f.status.value));
    }
    filtered := data.(contributions := contributions, expenses := expenses, deceased := deceased);
    ContributionsInOnePass(data.contributions, datedContributions, forDeceased, contributions, f, now);
    ExpensesInOnePass(data.expenses, datedExpenses, expenses, f, now);
    DeceasedInOnePass(data.deceased, deceased, f);
    FilteredSnapshot(data, filtered, f, now);
  }

  /** A snapshot whose contributions, expenses and deceased are the one-pass
      filters of another's, and whose other lists are the other's, holds
      exactly the records that pass, in their original order; with no
      filter set it is the other snapshot. */
  lemma FilteredSnapshot(data: Snapshot, filtered: Snapshot, f: Filters, now: int)
    requires filtered.contributions == Filter(data.contributions, ContributionFilter(f, now))
    requires filtered.expenses == Filter(data.expenses, ExpenseFilter(f, now))
    requires filtered.deceased == Filter(data.deceased, DeceasedFilter(f))
    requires filtered.contributors == data.contributors && filtered.users == data.users
    requires filtered.settings == data.settings
    ensures forall c :: c in filtered.contributions <==> c in data.contributions && KeepContribution(f, now, c)
    ensures forall e :: e in filtered.expenses <==> e in data.expenses && KeepExpense(f, now, e)
    ensures forall d :: d in filtered.deceased <==> d in data.deceased && KeepDeceased(f, d)
    ensures IsSubsequence(filtered.contributions, data.contributions)
    ensures IsSubsequence(filtered.expenses, data.expenses)
    ensures IsSubsequence(filtered.deceased, data.deceased)
    ensures f == NoFilters ==> filtered == data
  {
    FilterMembers(data.contributions, ContributionFilter(f, now));
    FilterMembers(data.expenses, ExpenseFilter(f, now));
    FilterMembers(data.deceased, DeceasedFilter(f));
    FilterIsSubsequence(data.contributions, ContributionFilter(f, now));
    FilterIsSubsequence(data.expenses, ExpenseFilter(f, now));
    FilterIsSubsequence(data.deceased, DeceasedFilter(f));
    if f == NoFilters {
      FilterAll(data.contributions, ContributionFilter(f, now));
      FilterAll(data.expenses, ExpenseFilter(f, now));
      FilterAll(data.deceased, DeceasedFilter(f));
    }
  }

  /** The contribution steps of `applyFilters`, one after the other, select
      what a single filter by KeepContribution selects. */
  lemma ContributionsInOnePass(data: seq<Contribution>, dated: seq<Contribution>, forDeceased: seq<Contribution>,
                               kept: seq<Contribution>, f: Filters, now: int)
    requires dated == if f.startDate.Some? || f.endDate.Some?
      then Filter(data, ContributionIn(f.startDate.GetOr(0), f.endDate.GetOr(now))) else data
    requires forDeceased == if f.deceasedId.Some? then Filter(dated, ContributionFor(f.deceasedId.value)) else dated
    requires kept == if f.contributorId.Some? then Filter(forDeceased, ContributionFrom(f.contributorId.value)) else forDeceased
    ensures kept == Filter(data, ContributionFilter(f, now))
  {
    var period := (c: Contribution) => InPeriod(f, now, c.date);
    var toDeceased := (c: Contribution) => InPeriod(f, now, c.date)
      && (f.deceasedId.Some? ==> c.deceasedId == f.deceasedId.value);
    if f.startDate.Some? || f.endDate.Some? {
      FilterAlike(data, ContributionIn(f.startDate.GetOr(0), f.endDate.GetOr(now)), period);
    } else {
      FilterAll(data, period);
    }
    if f.deceasedId.Some? {
      FilterThen(data, period, ContributionFor(f.deceasedId.value), toDeceased);
    } else {
      FilterAlike(data, period, toDeceased);
    }
    if f.contributorId.Some? {
      FilterThen(data, toDeceased, ContributionFrom(f.contributorId.value), ContributionFilter(f, now));
    } else {
      FilterAlike(data, toDeceased, ContributionFilter(f, now));
    }
  }

  /** Likewise for the two expense steps. */
  lemma ExpensesInOnePass(data: seq<Expense>, dated: seq<Expense>, kept: seq<Expense>, f: Filters, now: int)
    requires dated == if f.startDate.Some? || f.endDate.Some?
      then Filter(data, ExpenseIn(f.startDate.GetOr(0), f.endDate.GetOr(now))) else data
    requires kept == if f.deceasedId.Some? then Filter(dated, ExpenseFor(f.deceasedId.value)) else dated
    ensures kept == Filter(data, ExpenseFilter(f, now))
  {
    var period := (e: Expense) => InPeriod(f, now, e.date);
    if f.startDate.Some? || f.endDate.Some? {
      FilterAlike(data, ExpenseIn(f.startDate.GetOr(0), f.endDate.GetOr(now)), period);
    } else {
      FilterAll(data, period);
    }
    if f.deceasedId.Some? {
      FilterThen(data, period, ExpenseFor(f.deceasedId.value), ExpenseFilter(f, now));
    } else {
      FilterAlike(data, period, ExpenseFilter(f, now));
    }
  }

  /** And for the status step on the deceased. */
  lemma DeceasedInOnePass(data: seq<Deceased>, kept: seq<Deceased>, f: Filters)
    requires kept == if f.status.Some? then Filter(data, WithStatus(f.status.value)) else data
    ensures kept == Filter(data, DeceasedFilter(f))
  {
    if f.status.Some? {
      FilterAlike(data, WithStatus(f.status.value), DeceasedFilter(f));
    } else {
      FilterAll(data, DeceasedFilter(f));
    }
  }

  /** The three narrowing steps `applyFilters` applies to contributions,
      taken together. */
  lemma ContributionStages(data: seq<Contribution>, dated: seq<Contribution>, forDeceased: seq<Contribution>,
                           kept: seq<Contribution>, f: Filters, now: int)
    requires dated == if f.startDate.Some? || f.endDate.Some?
      then Filter(data, ContributionIn(f.startDate.GetOr(0), f.endDate.GetOr(now))) else data
    requires forDeceased == if f.deceasedId.Some? then Filter(dated, ContributionFor(f.deceasedId.value)) else dated
    requires kept == if f.contributorId.Some? then Filter(forDeceased, ContributionFrom(f.contributorId.value)) else forDeceased
    ensures forall c :: c in kept <==> c in data && KeepContribution(f, now, c)
    ensures IsSubsequence(kept, data)
  {
    ContributionsDated(data, dated, f, now);
    ContributionsForDeceased(data, dated, forDeceased, f, now);
    if f.contributorId.Some? {
      var p := ContributionFrom(f.contributorId.value);
      Narrow(forDeceased, data, p);
      forall c ensures c in kept <==> c in data && KeepContribution(f, now, c) {
        assert p(c) == (c.contributorId == f.contributorId.value);
      }
    }
  }

  /** The deceased step on contributions, after the date step. */
  lemma ContributionsForDeceased(data: seq<Contribution>, dated: seq<Contribution>, forDeceased: seq<Contribution>,
                                 f: Filters, now: int)
    requires forall c :: c in dated <==> c in data && InPeriod(f, now, c.date)
    requires IsSubsequence(dated, data)
    requires forDeceased == if f.deceasedId.Some? then Filter(dated, ContributionFor(f.deceasedId.value)) else dated
    ensures forall c :: c in forDeceased <==>
      (c in data && InPeriod(f, now, c.date) && (f.deceasedId.Some? ==> c.deceasedId == f.deceasedId.value))
    ensures IsSubsequence(forDeceased, data)
  {
    if f.deceasedId.Some? {
      Narrow(dated, data, ContributionFor(f.deceasedId.value));
    }
  }

  /** The date step on contributions. */
  lemma ContributionsDated(data: seq<Contribution>, dated: seq<Contribution>, f: Filters, now: int)
    requires dated == if f.startDate.Some? || f.endDate.Some?
      then Filter(data, ContributionIn(f.startDate.GetOr(0), f.endDate.GetOr(now))) else data
    ensures forall c :: c in dated <==> c in data && InPeriod(f, now, c.date)
    ensures IsSubsequence(dated, data)
  {
    SubsequenceRefl(data);
    if f.startDate.Some? || f.endDate.Some? {
      Narrow(data, data, ContributionIn(f.startDate.GetOr(0), f.endDate.GetOr(now)));
    }
  }

  /** The two narrowing steps `applyFilters` applies to expenses. */
  lemma ExpenseStages(data: seq<Expense>, dated: seq<Expense>, kept: seq<Expense>, f: Filters, now: int)
    requires dated == if f.startDate.Some? || f.endDate.Some?
      then Filter(data, ExpenseIn(f.startDate.GetOr(0), f.endDate.GetOr(now))) else data
    requires kept == if f.deceasedId.Some? then Filter(dated, ExpenseFor(f.deceasedId.value)) else dated
    ensures forall e :: e in kept <==> e in data && KeepExpense(f, now, e)
    ensures IsSubsequence(kept, data)
  {
    ExpensesDated(data, dated, f, now);
    if f.deceasedId.Some? {
      var p := ExpenseFor(f.deceasedId.value);
      Narrow(dated, data, p);
      forall e ensures e in kept <==> e in data && KeepExpense(f, now, e) {
        assert p(e) == (e.deceasedId == f.deceasedId.value);
      }
    }
  }

  /** The date step on expenses. */
  lemma ExpensesDated(data: seq<Expense>, dated: seq<Expense>, f: Filters, now: int)
    requires dated == if f.startDate.Some? || f.endDate.Some?
      then Filter(data, ExpenseIn(f.startDate.GetOr(0), f.endDate.GetOr(now))) else data
    ensures forall e :: e in dated <==> e in data && InPeriod(f, now, e.date)
    ensures IsSubsequence(dated, data)
  {
    SubsequenceRefl(data);
    if f.startDate.Some? || f.endDate.Some? {
      Narrow(data, data, ExpenseIn(f.startDate.GetOr(0), f.endDate.GetOr(now)));
    }
  }

  /** The status step, the only one that touches the deceased. */
  lemma DeceasedStage(data: seq<Deceased>, kept: seq<Deceased>, f: Filters)
    requires kept == if f.status.Some? then Filter(data, WithStatus(f.status.value)) else data
    ensures forall d :: d in kept <==> d in data && KeepDeceased(f, d)
    ensures IsSubsequence(kept, data)
  {
    SubsequenceRefl(data);
    if f.status.Some? {
      Narrow(data, data, WithStatus(f.status.value));
    }
  }

  /** The summary cards: the dashboard's totals, taken over the filtered
      contributions and expenses. */
  function ReportTotals(filtered: Snapshot): (t: Totals)
    ensures t.contributions == SumBy(filtered.contributions, ContributionAmount)
    ensures t.expenses == SumBy(filtered.expenses, ExpenseAmount)
    ensures t.balance == t.contributions - t.expenses
  {
    TotalsOf(filtered.contributions, filtered.expenses)
  }

  /** Filtering only drops records, so with amounts that are never
      negative the report's income and spending never exceed the totals
      over everything stored. */
  lemma ReportTotalsWithinAll(data: Snapshot, filtered: Snapshot)
    requires IsSubsequence(filtered.contributions, data.contributions)
    requires IsSubsequence(filtered.expenses, data.expenses)
    requires forall c :: c in data.contributions ==> c.amount >= 0
    requires forall e :: e in data.expenses ==> e.amount >= 0
    ensures ReportTotals(filtered).contributions <= TotalsOf(data.contributions, data.expenses).contributions
    ensures ReportTotals(filtered).expenses <= TotalsOf(data.contributions, data.expenses).expenses
  {
    SumBySubsequence(filtered.contributions, data.contributions, ContributionAmount);
    SumBySubsequence(filtered.expenses, data.expenses, ExpenseAmount);
  }

  // ---------------------------------------------------------------------
  // Chart tallies


  /** `religionData`. */
  function ReligionData(contributors: seq<Contributor>): map<Religion, nat> {
    Tally(contributors, ReligionOf)
  }

  /** `statusData`. */
  function StatusData(deceased: seq<Deceased>): map<DeceasedStatus, nat> {
    Tally(deceased, StatusOf)
  }

  /** Every contributor is counted once under its religion, and every
      deceased once under its status, so each chart's slices add up to the
      size of the list it was drawn from. */
  lemma ChartTalliesCover(cs: seq<Contributor>, ds: seq<Deceased>)
    ensures TallyOf(ReligionData(cs), Christian) + TallyOf(ReligionData(cs), Muslim)
            + TallyOf(ReligionData(cs), OtherReligion) == |cs|
    ensures TallyOf(StatusData(ds), Pending) + TallyOf(StatusData(ds), Completed) == |ds|
    ensures forall r :: r in ReligionData(cs) ==> ReligionData(cs)[r] > 0
    ensures forall st :: st in StatusData(ds) ==> StatusData(ds)[st] > 0
  {
    TallyCounts(cs, ReligionOf, Christian);
    TallyCounts(cs, ReligionOf, Muslim);
    TallyCounts(cs, ReligionOf, OtherReligion);
    TallyCounts(ds, StatusOf, Pending);
    TallyCounts(ds, StatusOf, Completed);
    ReligionCountsCover(cs);
    StatusCountsCover(ds);
    forall r | r in ReligionData(cs) ensures ReligionData(cs)[r] > 0 {
      TallyCounts(cs, ReligionOf, r);
    }
    forall st | st in StatusData(ds) ensures StatusData(ds)[st] > 0 {
      TallyCounts(ds, StatusOf, st);
    }
  }

  // ---------------------------------------------------------------------
  // CSV export

  const CsvHeader: seq<string> := ["Date", "Deceased", "Contributor", "Amount", "Notes"]

  /** The five fields of one contribution's line: its date in the locale
      format, the two names, the amount and the notes (empty when absent). */
  function CsvFields(view: Snapshot, c: Contribution, dateText: int -> string): seq<string> {
    [dateText(c.date),
     DeceasedName(view.deceased, c.deceasedId),
     ContributorName(view.contributors, c.contributorId),
     IntToString(c.amount),
     c.notes.GetOr("")]
  }

  /** The records of `exportToCSV`'s file: the header, then one record per
      contribution of the view, in order. */
  function CsvRecords(view: Snapshot, dateText: int -> string): (r: seq<seq<string>>)
    ensures |r| == 1 + |view.contributions|
    ensures forall i :: 0 <= i < |r| ==> |r[i]| == 5
  {
    [CsvHeader] + seq(|view.contributions|, i requires 0 <= i < |view.contributions| =>
      CsvFields(view, view.contributions[i], dateText))
  }

  /** Each record with its fields joined by commas as they are. */
  function PlainLines(records: seq<seq<string>>): (r: seq<string>)
    ensures |r| == |records|
  {
    if records == [] then [] else [Join(records[0], ",")] + PlainLines(records[1..])
  }

  /** `exportToCSV`'s file content as the page writes it: no field is
      quoted. */
  function CsvContentAsWritten(view: Snapshot, dateText: int -> string): string {
    Join(PlainLines(CsvRecords(view, dateText)), "\n")
  }

  /** The file content with every field quoted as RFC 4180 prescribes. */
  function CsvContent(view: Snapshot, dateText: int -> string): string {
    Join(QuotedLines(CsvRecords(view, dateText)), "\n")
  }

  /** Read back by an RFC 4180 reader, the quoted file gives the header
      line and then, for each contribution in order, its date, its deceased's
      and contributor's names (or 'Unknown'), its amount and its notes,
      whatever characters those hold. */
  lemma CsvReadsBack(view: Snapshot, dateText: int -> string)
    ensures ParseCsv(CsvContent(view, dateText)) == CsvRecords(view, dateText)
    ensures CsvRecords(view, dateText)[0] == ["Date", "Deceased", "Contributor", "Amount", "Notes"]
    ensures forall i :: 0 <= i < |view.contributions| ==>
      CsvRecords(view, dateText)[i + 1] == CsvFields(view, view.contributions[i], dateText)
  {
    ParseQuoted(CsvRecords(view, dateText));
  }

  /** A snapshot holding one contribution whose note contains a comma,
      with every date printed as "d". */
  function CommaView(): Snapshot {
    Snapshot([], [], [Contribution(1, 1, 1, 5, 0, Some("x,y"), false, 0)], [], [], [])
  }

  function SameDate(t: int): string { "d" }

  /** The page's own file breaks as soon as a note holds a comma: a
      contribution noted "x,y" reads back as six fields, not five. */
  lemma CsvAsWrittenSplitsNotes()
    ensures ParseCsv(CsvContentAsWritten(CommaView(), SameDate)) != CsvRecords(CommaView(), SameDate)
    ensures ParseCsv(CsvContentAsWritten(CommaView(), SameDate))
      == [CsvHeader, ["d", "Unknown", "Unknown", "5", "x", "y"]]
  {
    var front := ["d", "Unknown", "Unknown", "5"];
    var read := [CsvHeader, front + ["x", "y"]];
    CommaRecords();
    ExampleLines(front);
    ExampleFieldsPlain(front);
    ParsePlain(PlainLines(CsvRecords(CommaView(), SameDate)), read);
    assert front + ["x", "y"] == ["d", "Unknown", "Unknown", "5", "x", "y"];
    assert |read[1]| == 6;
  }

  /** The example's records: the header and one line whose last field is the note. */
  lemma CommaRecords()
    ensures CsvRecords(CommaView(), SameDate) == [CsvHeader, ["d", "Unknown", "Unknown", "5"] + ["x" + "," + "y"]]
  {
    var r := CsvRecords(CommaView(), SameDate);
    assert "x" + "," + "y" == "x,y";
    assert r[1] == ["d", "Unknown", "Unknown", "5", "x,y"];
    assert ["d", "Unknown", "Unknown", "5"] + ["x,y"] == ["d", "Unknown", "Unknown", "5", "x,y"];
    assert r == [r[0], r[1]];
  }

  /** The example's unquoted lines: the note's comma joins like a separator. */
  lemma ExampleLines(front: seq<string>)
    ensures PlainLines([CsvHeader, front + ["x" + "," + "y"]]) == [Join(CsvHeader, ","), Join(front + ["x", "y"], ",")]
  {
    JoinSplitsLast(front, "x", "y", ",");
    assert [CsvHeader, front + ["x" + "," + "y"]][1..] == [front + ["x" + "," + "y"]];
  }

  lemma ExampleFieldsPlain(front: seq<string>)
    requires front == ["d", "Unknown", "Unknown", "5"]
    ensures forall k :: 0 <= k < |CsvHeader| ==> Plain(CsvHeader[k])
    ensures forall k :: 0 <= k < |front + ["x", "y"]| ==> Plain((front + ["x", "y"])[k])
  {
    assert Plain("Date") && Plain("Deceased") && Plain("Amount") && Plain("Notes");
    assert Plain("Contributor") by {
      forall k | 0 <= k < 11 ensures "Contributor"[k] != ',' && "Contributor"[k] != '\n' && "Contributor"[k] != '"' {
        assert "Contributor"[k] in "Contributor";
      }
    }
    assert Plain("d") && Plain("Unknown") && Plain("5") && Plain("x") && Plain("y");
    assert front + ["x", "y"] == ["d", "Unknown", "Unknown", "5", "x", "y"];
  }
}
