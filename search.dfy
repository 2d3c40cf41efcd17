/** The global search box of components/ui/search.tsx. Once the trimmed
    query has two characters, every enabled category's records are scanned
    in the order the database getters return them, the matches are pushed
    onto one list (deceased, then contributors, then contributions, then
    expenses) and the first ten are shown. The records the getters return
    are a parameter. */
module Search {
  import opened Optional
  import opened Seqs
  import opened Strings
  import opened Records
  import opened Lookups

  datatype Kind = DeceasedKind | ContributorKind | ContributionKind | ExpenseKind

  /** The record a result carries in its `data` field. */
  datatype Item =
    | DeceasedItem(deceased: Deceased)
    | ContributorItem(contributor: Contributor)
    | ContributionItem(contribution: Contribution)
    | ExpenseItem(expense: Expense)

  datatype SearchResult = SearchResult(kind: Kind, id: int, data: Item)

  /** The four category toggles. */
  datatype Categories = Categories(deceased: bool, contributors: bool, contributions: bool, expenses: bool)

  const AllCategories: Categories := Categories(true, true, true, true)
  const MinQueryLength: nat := 2
  const MaxResults: nat := 10

  function ReligionText(r: Religion): string {
    match r
    case Christian => "christian"
    case Muslim => "muslim"
    case OtherReligion => "other"
  }

  // ---------------------------------------------------------------------
  // What matches

  /** A deceased matches on its lower-cased name or representative's name,
      or on the representative's phone as stored. */
  function DeceasedMatch(term: string): Deceased -> bool {
    (d: Deceased) =>
      Includes(ToLower(d.name), term) || Includes(ToLower(d.representativeName), term)
      || Includes(d.representativePhone, term)
  }

  /** A contributor matches on its lower-cased name, its phone as stored or
      its lower-cased religion. */
  function ContributorMatch(term: string): Contributor -> bool {
    (c: Contributor) =>
      Includes(ToLower(c.name), term) || Includes(c.phone, term)
      || Includes(ToLower(ReligionText(c.religion)), term)
  }

  /** A contribution matches on the names behind it ('Unknown' when
      missing), its notes when present, or the decimal text of its amount. */
  function ContributionMatch(term: string, ds: seq<Deceased>, cs: seq<Contributor>): Contribution -> bool {
    (n: Contribution) =>
      Includes(ToLower(DeceasedName(ds, n.deceasedId)), term)
      || Includes(ToLower(ContributorName(cs, n.contributorId)), term)
      || (n.notes.Some? && Includes(ToLower(n.notes.value), term))
      || Includes(IntToString(n.amount), term)
  }

  /** An expense matches on its description, its deceased's name, or the
      decimal text of its amount. */
  function ExpenseMatch(term: string, ds: seq<Deceased>): Expense -> bool {
    (e: Expense) =>
      Includes(ToLower(e.description), term)
      || Includes(ToLower(DeceasedName(ds, e.deceasedId)), term)
      || Includes(IntToString(e.amount), term)
  }

  function DeceasedResult(d: Deceased): SearchResult { SearchResult(DeceasedKind, d.id, DeceasedItem(d)) }
  function ContributorResult(c: Contributor): SearchResult { SearchResult(ContributorKind, c.id, ContributorItem(c)) }
  function ContributionResult(n: Contribution): SearchResult { SearchResult(ContributionKind, n.id, ContributionItem(n)) }
  function ExpenseResult(e: Expense): SearchResult { SearchResult(ExpenseKind, e.id, ExpenseItem(e)) }

  /** A result's type and id are those of the record it carries. */
  predicate Faithful(r: SearchResult) {
    match r.data
    case DeceasedItem(d) => r.kind == DeceasedKind && r.id == d.id
    case ContributorItem(c) => r.kind == ContributorKind && r.id == c.id
    case ContributionItem(n) => r.kind == ContributionKind && r.id == n.id
    case ExpenseItem(e) => r.kind == ExpenseKind && r.id == e.id
  }

  /** The results `forEach` pushes for the elements of xs that pass. */
  function Hits<T>(xs: seq<T>, p: T -> bool, f: T -> SearchResult): seq<SearchResult>
    decreases |xs|
  {
    if xs == [] then []
    else Hits(xs[..|xs| - 1], p, f) + (if p(xs[|xs| - 1]) then [f(xs[|xs| - 1])] else [])
  }

  /** Everything a search finds before the cut to ten. */
  function Found(stores: Stores, on: Categories, term: string): seq<SearchResult> {
    (if on.deceased then Hits(stores.deceased, DeceasedMatch(term), DeceasedResult) else [])
    + (if on.contributors then Hits(stores.contributors, ContributorMatch(term), ContributorResult) else [])
    + (if on.contributions
       then Hits(stores.contributions, ContributionMatch(term, stores.deceased, stores.contributors), ContributionResult)
       else [])
    + (if on.expenses then Hits(stores.expenses, ExpenseMatch(term, stores.deceased), ExpenseResult) else [])
  }

  /** A search's results: the first ten of what it finds. */
  function Shown(stores: Stores, on: Categories, query: string): (r: seq<SearchResult>)
    ensures |r| <= MaxResults
  {
    Take(Found(stores, on, ToLower(query)), MaxResults)
  }

  // ---------------------------------------------------------------------
  // Properties of the search

  function MapResults<T>(xs: seq<T>, f: T -> SearchResult): (r: seq<SearchResult>)
    ensures |r| == |xs|
    ensures forall i :: 0 <= i < |xs| ==> r[i] == f(xs[i])
  {
    seq(|xs|, i requires 0 <= i < |xs| => f(xs[i]))
  }

  /** The hits are the passing elements, in their order, turned into
      results. */
  lemma {:induction false} HitsAreFilter<T>(xs: seq<T>, p: T -> bool, f: T -> SearchResult)
    ensures Hits(xs, p, f) == MapResults(Filter(xs, p), f)
    decreases |xs|
  {
    if xs != [] {
      var front, last := xs[..|xs| - 1], xs[|xs| - 1];
      HitsAreFilter(front, p, f);
      FrontAndLast(xs);
      FilterAppend(front, [last], p);
      assert Filter([last], p) == if p(last) then [last] else [];
    }
  }

  /** A result is a hit exactly when it is made from an element that
      passes. */
  lemma HitsMembers<T>(xs: seq<T>, p: T -> bool, f: T -> SearchResult)
    ensures forall r :: r in Hits(xs, p, f) <==> exists x :: x in xs && p(x) && r == f(x)
  {
    HitsAreFilter(xs, p, f);
    FilterMembers(xs, p);
    var m := MapResults(Filter(xs, p), f);
    forall r | r in Hits(xs, p, f) ensures exists x :: x in xs && p(x) && r == f(x) {
      var i :| 0 <= i < |m| && m[i] == r;
      assert Filter(xs, p)[i] in Filter(xs, p);
    }
    forall x | x in xs && p(x) ensures f(x) in Hits(xs, p, f) {
      assert x in Filter(xs, p);
      var i :| 0 <= i < |Filter(xs, p)| && Filter(xs, p)[i] == x;
      assert m[i] == f(x);
    }
  }

  function Rank(k: Kind): nat {
    match k
    case DeceasedKind => 0
    case ContributorKind => 1
    case ContributionKind => 2
    case ExpenseKind => 3
  }

  predicate Enabled(on: Categories, k: Kind) {
    match k
    case DeceasedKind => on.deceased
    case ContributorKind => on.contributors
    case ContributionKind => on.contributions
    case ExpenseKind => on.expenses
  }

  /** Results of one kind, every one faithful to its record. */
  ghost predicate AllOfKind(rs: seq<SearchResult>, k: Kind) {
    forall i :: 0 <= i < |rs| ==> rs[i].kind == k && Faithful(rs[i])
  }

  lemma KindOfHits<T>(xs: seq<T>, p: T -> bool, f: T -> SearchResult, k: Kind)
    requires forall x :: f(x).kind == k && Faithful(f(x))
    ensures AllOfKind(Hits(xs, p, f), k)
  {
    HitsAreFilter(xs, p, f);
  }

  /** The four category lists, one after the other. */
  lemma ConcatShape(a: seq<SearchResult>, b: seq<SearchResult>, c: seq<SearchResult>, d: seq<SearchResult>, on: Categories)
    requires AllOfKind(a, DeceasedKind) && (a != [] ==> on.deceased)
    requires AllOfKind(b, ContributorKind) && (b != [] ==> on.contributors)
    requires AllOfKind(c, ContributionKind) && (c != [] ==> on.contributions)
    requires AllOfKind(d, ExpenseKind) && (d != [] ==> on.expenses)
    ensures forall r :: r in a + b + c + d ==> Faithful(r) && Enabled(on, r.kind)
    ensures forall i, j :: 0 <= i < j < |a + b + c + d| ==> Rank((a + b + c + d)[i].kind) <= Rank((a + b + c + d)[j].kind)
  {
    var all := a + b + c + d;
    forall i | 0 <= i < |all|
      ensures Faithful(all[i]) && Enabled(on, all[i].kind)
      ensures Rank(all[i].kind) == if i < |a| then 0 else if i < |a| + |b| then 1
                                   else if i < |a| + |b| + |c| then 2 else 3
    {
      if i < |a| { assert all[i] == a[i]; }
      else if i < |a| + |b| { assert all[i] == b[i - |a|]; }
      else if i < |a| + |b| + |c| { assert all[i] == c[i - |a| - |b|]; }
      else { assert all[i] == d[i - |a| - |b| - |c|]; }
    }
  }

  /** Every result is faithful to its record and of an enabled category,
      and the categories come in the order deceased, contributors,
      contributions, expenses. */
  lemma FoundShape(stores: Stores, on: Categories, term: string)
    ensures forall r :: r in Found(stores, on, term) ==> Faithful(r) && Enabled(on, r.kind)
    ensures forall i, j :: 0 <= i < j < |Found(stores, on, term)| ==>
      Rank(Found(stores, on, term)[i].kind) <= Rank(Found(stores, on, term)[j].kind)
  {
    KindOfHits(stores.deceased, DeceasedMatch(term), DeceasedResult, DeceasedKind);
    KindOfHits(stores.contributors, ContributorMatch(term), ContributorResult, ContributorKind);
    KindOfHits(stores.contributions, ContributionMatch(term, stores.deceased, stores.contributors),
               ContributionResult, ContributionKind);
    KindOfHits(stores.expenses, ExpenseMatch(term, stores.deceased), ExpenseResult, ExpenseKind);
    ConcatShape(
      if on.deceased then Hits(stores.deceased, DeceasedMatch(term), DeceasedResult) else [],
      if on.contributors then Hits(stores.contributors, ContributorMatch(term), ContributorResult) else [],
      if on.contributions
      then Hits(stores.contributions, ContributionMatch(term, stores.deceased, stores.contributors), ContributionResult)
      else [],
      if on.expenses then Hits(stores.expenses, ExpenseMatch(term, stores.deceased), ExpenseResult) else [],
      on);
  }

  /** Results of a maker that keeps its record are hits exactly for the
      elements that pass. */
  lemma HitsOwn<T>(xs: seq<T>, p: T -> bool, f: T -> SearchResult, x: T)
    requires forall y, z :: f(y) == f(z) ==> y == z
    ensures f(x) in Hits(xs, p, f) <==> x in xs && p(x)
  {
    HitsMembers(xs, p, f);
  }

  lemma NotOfKind(rs: seq<SearchResult>, k: Kind, r: SearchResult)
    requires AllOfKind(rs, k) && r.kind != k
    ensures r !in rs
  {
  }

  /** The four category lists of a search. */
  function Parts(stores: Stores, on: Categories, term: string): (p: (seq<SearchResult>, seq<SearchResult>, seq<SearchResult>, seq<SearchResult>))
    ensures Found(stores, on, term) == p.0 + p.1 + p.2 + p.3
  {
    ((if on.deceased then Hits(stores.deceased, DeceasedMatch(term), DeceasedResult) else []),
     (if on.contributors then Hits(stores.contributors, ContributorMatch(term), ContributorResult) else []),
     (if on.contributions
      then Hits(stores.contributions, ContributionMatch(term, stores.deceased, stores.contributors), ContributionResult)
      else []),
     (if on.expenses then Hits(stores.expenses, ExpenseMatch(term, stores.deceased), ExpenseResult) else []))
  }

  /** Every part holds results of its own kind only. */
  lemma PartsOfKind(stores: Stores, on: Categories, term: string)
    ensures AllOfKind(Parts(stores, on, term).0, DeceasedKind)
    ensures AllOfKind(Parts(stores, on, term).1, ContributorKind)
    ensures AllOfKind(Parts(stores, on, term).2, ContributionKind)
    ensures AllOfKind(Parts(stores, on, term).3, ExpenseKind)
  {
    KindOfHits(stores.deceased, DeceasedMatch(term), DeceasedResult, DeceasedKind);
    KindOfHits(stores.contributors, ContributorMatch(term), ContributorResult, ContributorKind);
    KindOfHits(stores.contributions, ContributionMatch(term, stores.deceased, stores.contributors),
               ContributionResult, ContributionKind);
    KindOfHits(stores.expenses, ExpenseMatch(term, stores.deceased), ExpenseResult, ExpenseKind);
  }

  /** A deceased record is found exactly when its category is on and it
      matches, and likewise for the other three kinds. */
  lemma FoundExactly(stores: Stores, on: Categories, term: string)
    ensures forall x :: (DeceasedResult(x) in Found(stores, on, term)
      <==> on.deceased && x in stores.deceased && DeceasedMatch(term)(x))
    ensures forall x :: (ContributorResult(x) in Found(stores, on, term)
      <==> on.contributors && x in stores.contributors && ContributorMatch(term)(x))
    ensures forall x :: (ContributionResult(x) in Found(stores, on, term)
      <==> on.contributions && x in stores.contributions
           && ContributionMatch(term, stores.deceased, stores.contributors)(x))
    ensures forall x :: (ExpenseResult(x) in Found(stores, on, term)
      <==> on.expenses && x in stores.expenses && ExpenseMatch(term, stores.deceased)(x))
  {
    var parts := Parts(stores, on, term);
    var a, b, c, d := parts.0, parts.1, parts.2, parts.3;
    PartsOfKind(stores, on, term);
    forall x ensures DeceasedResult(x) in a + b + c + d
      <==> on.deceased && x in stores.deceased && DeceasedMatch(term)(x)
    {
      HitsOwn(stores.deceased, DeceasedMatch(term), DeceasedResult, x);
      NotOfKind(b, ContributorKind, DeceasedResult(x));
      NotOfKind(c, ContributionKind, DeceasedResult(x));
      NotOfKind(d, ExpenseKind, DeceasedResult(x));
    }
    forall x ensures ContributorResult(x) in a + b + c + d
      <==> on.contributors && x in stores.contributors && ContributorMatch(term)(x)
    {
      HitsOwn(stores.contributors, ContributorMatch(term), ContributorResult, x);
      NotOfKind(a, DeceasedKind, ContributorResult(x));
      NotOfKind(c, ContributionKind, ContributorResult(x));
      NotOfKind(d, ExpenseKind, ContributorResult(x));
    }
    forall x ensures ContributionResult(x) in a + b + c + d
      <==> on.contributions && x in stores.contributions
           && ContributionMatch(term, stores.deceased, stores.contributors)(x)
    {
      HitsOwn(stores.contributions, ContributionMatch(term, stores.deceased, stores.contributors), ContributionResult, x);
      NotOfKind(a, DeceasedKind, ContributionResult(x));
      NotOfKind(b, ContributorKind, ContributionResult(x));
      NotOfKind(d, ExpenseKind, ContributionResult(x));
    }
    forall x ensures ExpenseResult(x) in a + b + c + d
      <==> on.expenses && x in stores.expenses && ExpenseMatch(term, stores.deceased)(x)
    {
      HitsOwn(stores.expenses, ExpenseMatch(term, stores.deceased), ExpenseResult, x);
      NotOfKind(a, DeceasedKind, ExpenseResult(x));
      NotOfKind(b, ContributorKind, ExpenseResult(x));
      NotOfKind(c, ContributionKind, ExpenseResult(x));
    }
  }

  /** The shown results are the first ten found, so they too are faithful,
      enabled and in category order. */
  lemma ShownIsPrefix(stores: Stores, on: Categories, query: string)
    ensures Shown(stores, on, query) == Found(stores, on, ToLower(query))[..|Shown(stores, on, query)|]
    ensures |Found(stores, on, ToLower(query))| <= MaxResults ==> Shown(stores, on, query) == Found(stores, on, ToLower(query))
    ensures forall r :: r in Shown(stores, on, query) ==> Faithful(r) && Enabled(on, r.kind)
  {
    FoundShape(stores, on, ToLower(query));
    var f := Found(stores, on, ToLower(query));
    forall r | r in Shown(stores, on, query) ensures r in f {
      var i :| 0 <= i < |Shown(stores, on, query)| && Shown(stores, on, query)[i] == r;
      assert f[i] == r;
    }
  }

  /** A contribution whose deceased is not in the store is shown under the
      name 'Unknown', so a search for "unk" finds it. */
  lemma UnknownNameMatches(stores: Stores, n: Contribution)
    requires forall d :: d in stores.deceased ==> d.id != n.deceasedId
    ensures ContributionMatch("unk", stores.deceased, stores.contributors)(n)
  {
    NameResolution(stores.deceased, stores.contributors, n.deceasedId);
    assert ToLower("Unknown") == "unknown";
    assert StartsWith("unknown", "unk");
  }

  // ---------------------------------------------------------------------
  // The component

  /** `searchResults.push(...)` for every element of xs that passes, in
      order. */
  method PushMatches<T>(acc: seq<SearchResult>, xs: seq<T>, p: T -> bool, f: T -> SearchResult)
    returns (r: seq<SearchResult>)
    ensures r == acc + Hits(xs, p, f)
  {
    r := acc;
    var i := 0;
    while i < |xs|
      invariant 0 <= i <= |xs|
      invariant r == acc + Hits(xs[..i], p, f)
    {
      assert xs[..i + 1][..i] == xs[..i];
      if p(xs[i]) {
        r := r + [f(xs[i])];
      }
      i := i + 1;
    }
    assert xs[..i] == xs;
  }

  class GlobalSearch {
    var query: string
    var filters: Categories
    var results: seq<SearchResult>
    var showResults: bool

    constructor()
      ensures query == "" && filters == AllCategories && results == [] && !showResults
    {
      query := "";
      filters := AllCategories;
      results := [];
      showResults := false;
    }

    /** `performSearch`: each enabled category in turn pushes its matches
        for the lower-cased query, and the first ten are shown. */
    method PerformSearch(stores: Stores)
      modifies this`results, this`showResults
      ensures results == Shown(stores, filters, query) && showResults
    {
      var found: seq<SearchResult> := [];
      var term := ToLower(query);
      ghost var a, b, c, d: seq<SearchResult> := [], [], [], [];
      if filters.deceased {
        a := Hits(stores.deceased, DeceasedMatch(term), DeceasedResult);
        found := PushMatches(found, stores.deceased, DeceasedMatch(term), DeceasedResult);
        assert [] + a == a;
      }
      assert found == a;
      if filters.contributors {
        b := Hits(stores.contributors, ContributorMatch(term), ContributorResult);
        found := PushMatches(found, stores.contributors, ContributorMatch(term), ContributorResult);
      }
      assert found == a + b;
      if filters.contributions {
        c := Hits(stores.contributions, ContributionMatch(term, stores.deceased, stores.contributors), ContributionResult);
        found := PushMatches(found, stores.contributions,
                             ContributionMatch(term, stores.deceased, stores.contributors), ContributionResult);
      }
      assert found == a + b + c;
      if filters.expenses {
        d := Hits(stores.expenses, ExpenseMatch(term, stores.deceased), ExpenseResult);
        found := PushMatches(found, stores.expenses, ExpenseMatch(term, stores.deceased), ExpenseResult);
      }
      assert a == if filters.deceased then Hits(stores.deceased, DeceasedMatch(term), DeceasedResult) else [];
      assert b == if filters.contributors then Hits(stores.contributors, ContributorMatch(term), ContributorResult) else [];
      assert c == if filters.contributions
        then Hits(stores.contributions, ContributionMatch(term, stores.deceased, stores.contributors), ContributionResult)
        else [];
      assert d == if filters.expenses then Hits(stores.expenses, ExpenseMatch(term, stores.deceased), ExpenseResult) else [];
      assert found == a + b + c + d;
      results := Take(found, MaxResults);
      showResults := true;
    }

    /** The effect that runs whenever the query or the toggles change: a
        search for two or more characters after trimming, otherwise no
        results and the panel hidden. */
    method Refresh(stores: Stores)
      modifies this`results, this`showResults
      ensures |Trim(query)| >= MinQueryLength ==> results == Shown(stores, filters, query) && showResults
      ensures |Trim(query)| < MinQueryLength ==> results == [] && !showResults
    {
      if |Trim(query)| >= MinQueryLength {
        PerformSearch(stores);
      } else {
        results := [];
        showResults := false;
      }
    }

    /** Typing into the box. */
    method SetQuery(q: string, stores: Stores)
      modifies this`query, this`results, this`showResults
      ensures query == q
      ensures |Trim(q)| >= MinQueryLength ==> results == Shown(stores, filters, q) && showResults
      ensures |Trim(q)| < MinQueryLength ==> results == [] && !showResults
    {
      query := q;
      Refresh(stores);
    }

    /** One of the four category buttons. */
    method ToggleCategory(k: Kind, stores: Stores)
      modifies this`filters, this`results, this`showResults
      ensures Enabled(filters, k) == !Enabled(old(filters), k)
      ensures forall j :: j != k ==> Enabled(filters, j) == Enabled(old(filters), j)
      ensures |Trim(query)| >= MinQueryLength ==> results == Shown(stores, filters, query) && showResults
      ensures |Trim(query)| < MinQueryLength ==> results == [] && !showResults
    {
      match k {
        case DeceasedKind => filters := filters.(deceased := !filters.deceased);
        case ContributorKind => filters := filters.(contributors := !filters.contributors);
        case ContributionKind => filters := filters.(contributions := !filters.contributions);
        case ExpenseKind => filters := filters.(expenses := !filters.expenses);
      }
      Refresh(stores);
    }

    /** `clearSearch`. */
    method ClearSearch()
      modifies this`query, this`results, this`showResults
      ensures query == "" && results == [] && !showResults
    {
      query := "";
      results := [];
      showResults := false;
    }

    /** `handleResultClick`: the panel closes, the query is emptied (so the
        effect clears the results) and the result goes to the caller. */
    method HandleResultClick(r: SearchResult, stores: Stores) returns (clicked: SearchResult)
      modifies this`query, this`results, this`showResults
      ensures clicked == r
      ensures query == "" && results == [] && !showResults
    {
      showResults := false;
      query := "";
      Refresh(stores);
      clicked := r;
    }

    /** Focusing the box reopens the panel when the query is long enough. */
    method Focus()
      modifies this`showResults
      ensures showResults == (old(showResults) || |Trim(query)| >= MinQueryLength)
    {
      if |Trim(query)| >= MinQueryLength {
        showResults := true;
      }
    }
  }
}
