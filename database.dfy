/** The local IndexedDB database of lib/database.ts: six object stores with
    auto-increment primary keys, and the helper operations the pages and
    the sync service call on them. */
module LocalDatabase {
  import opened Optional
  import opened Seqs
  import opened Tables
  import opened Records

  /** What an `add` resolves with: the key the record went under, or the
      constraint error raised when a record's own key is already taken. */
  datatype AddOutcome = Added(id: int) | KeyTaken

  /** The six stores together, as a value. */
  datatype DbState = DbState(
    deceased: Table<Deceased>,
    contributors: Table<Contributor>,
    contributions: Table<Contribution>,
    expenses: Table<Expense>,
    users: Table<User>,
    settings: Table<Setting>)

  ghost predicate Consistent(st: DbState) {
    WellFormed(st.deceased, DeceasedKey) && WellFormed(st.contributors, ContributorKey) &&
    WellFormed(st.contributions, ContributionKey) && WellFormed(st.expenses, ExpenseKey) &&
    WellFormed(st.users, UserKey) && WellFormed(st.settings, SettingKey)
  }

  /** The key an add uses: the record's own key when it carries one,
      otherwise the store's key generator. */
  function KeyFor<T>(t: Table<T>, explicit: Option<int>): (k: int)
    ensures explicit.Some? ==> k == explicit.value
    ensures explicit.None? ==> k == t.next
  {
    explicit.GetOr(t.next)
  }

  /** An add on one store, with what the call resolves with. */
  function AddTo<T>(t: Table<T>, key: T -> int, x: T): (r: (Table<T>, AddOutcome))
    requires WellFormed(t, key)
    ensures WellFormed(r.0, key)
  {
    match Add(t, key, x)
    case Some(t') => (t', Added(key(x)))
    case None => (t, KeyTaken)
  }

  /** An add fails exactly when the key is taken, and then changes
      nothing; otherwise the row is stored under its key and every other
      key's row is as it was. */
  lemma AddToGet<T>(t: Table<T>, key: T -> int, x: T)
    requires WellFormed(t, key)
    ensures var r := AddTo(t, key, x);
            (r.1 == KeyTaken <==> Get(t.rows, key, key(x)).Some?) &&
            (r.1 == KeyTaken ==> r.0 == t) &&
            (r.1.Added? ==> r.1.id == key(x) && Get(r.0.rows, key, key(x)) == Some(x)) &&
            (r.1.Added? ==> forall k :: k != key(x) ==> Get(r.0.rows, key, k) == Get(t.rows, key, k))
  {
    AddGet(t, key, x);
  }

  /** A new deceased record as `addDeceased` stores it. */
  function NewDeceased(d: Deceased, id: int, now: int): Deceased {
    d.(id := id, isSynced := false, createdAt := now, updatedAt := now)
  }

  function NewContributor(c: Contributor, id: int, now: int): Contributor {
    c.(id := id, isSynced := false, createdAt := now, updatedAt := now)
  }

  function NewContribution(c: Contribution, id: int, now: int): Contribution {
    c.(id := id, isSynced := false, createdAt := now)
  }

  function NewExpense(e: Expense, id: int, now: int): Expense {
    e.(id := id, isSynced := false, createdAt := now)
  }

  function NewUser(u: User, id: int, now: int): User {
    u.(id := id, createdAt := now, updatedAt := now)
  }

  // The `updates` objects of the update helpers, as functions on a record.
  function DeceasedChanges(p: DeceasedPatch, now: int): Deceased -> Deceased {
    (d: Deceased) => PatchDeceased(d, p, now)
  }

  function ContributorChanges(p: ContributorPatch, now: int): Contributor -> Contributor {
    (c: Contributor) => PatchContributor(c, p, now)
  }

  function UserChanges(p: UserPatch, now: int): User -> User {
    (u: User) => PatchUser(u, p, now)
  }

  function SettingChanges(value: string, now: int): Setting -> Setting {
    (s: Setting) => s.(value := value, updatedAt := now)
  }

  // `update(id, { isSynced: true })`: nothing else changes, not even updatedAt.
  function DeceasedSynced(d: Deceased): Deceased { d.(isSynced := true) }
  function ContributorSynced(c: Contributor): Contributor { c.(isSynced := true) }
  function ContributionSynced(c: Contribution): Contribution { c.(isSynced := true) }
  function ExpenseSynced(e: Expense): Expense { e.(isSynced := true) }

  function SettingHasKey(k: string): Setting -> bool {
    (s: Setting) => s.key == k
  }

  /** `setSetting(key, value)` on the settings store: the first setting with
      that key (in primary-key order) gets the value, or a new setting is
      added under a generated key. */
  function SetSettingIn(t: Table<Setting>, k: string, value: string, now: int): (r: Table<Setting>)
    requires WellFormed(t, SettingKey)
    ensures WellFormed(r, SettingKey)
  {
    match Find(t.rows, SettingHasKey(k))
    case Some(s) => Update(t, SettingKey, s.id, SettingChanges(value, now))
    case None =>
      AddGenerated(t, SettingKey, Setting(t.next, k, value, now));
      Add(t, SettingKey, Setting(t.next, k, value, now)).value
  }

  /** `getSetting(key)`: the value of the first setting with that key. */
  function SettingValue(t: Table<Setting>, k: string): (r: Option<string>)
    ensures r.None? <==> forall i :: 0 <= i < |t.rows| ==> t.rows[i].key != k
    ensures r.Some? ==> exists i :: 0 <= i < |t.rows| && t.rows[i].key == k && r.value == t.rows[i].value &&
                                  forall j :: 0 <= j < i ==> t.rows[j].key != k
  {
    match FindIndex(t.rows, SettingHasKey(k))
    case Some(i) =>
      assert SettingHasKey(k)(t.rows[i]);
      Some(t.rows[i].value)
    case None => None
  }

  /** After `setSetting(key, value)`, `getSetting(key)` returns value. */
  lemma SetThenGetSetting(t: Table<Setting>, k: string, value: string, now: int)
    requires WellFormed(t, SettingKey)
    ensures SettingValue(SetSettingIn(t, k, value, now), k) == Some(value)
  {
    match FindIndex(t.rows, SettingHasKey(k))
    case Some(i) => SetExistingThenGet(t, k, value, now, i);
    case None => SetNewThenGet(t, k, value, now);
  }

  /** The key is already stored at row i: that row is rewritten in place. */
  lemma SetExistingThenGet(t: Table<Setting>, k: string, value: string, now: int, i: nat)
    requires WellFormed(t, SettingKey)
    requires FindIndex(t.rows, SettingHasKey(k)) == Some(i)
    ensures SettingValue(SetSettingIn(t, k, value, now), k) == Some(value)
    ensures var r := SetSettingIn(t, k, value, now);
            |r.rows| == |t.rows| && r.next == t.next &&
            forall j :: 0 <= j < |t.rows| ==>
              r.rows[j] == if j == i then t.rows[i].(value := value, updatedAt := now) else t.rows[j]
  {
    var r := SetSettingIn(t, k, value, now);
    var p := SettingHasKey(k);
    SetExistingRows(t, k, value, now, i);
    assert p(r.rows[i]);
    assert forall j :: 0 <= j < i ==> !p(r.rows[j]);
    assert FindIndex(r.rows, p) == Some(i);
  }

  /** The update behind an existing key rewrites exactly row i. */
  lemma SetExistingRows(t: Table<Setting>, k: string, value: string, now: int, i: nat)
    requires WellFormed(t, SettingKey)
    requires FindIndex(t.rows, SettingHasKey(k)) == Some(i)
    ensures var r := SetSettingIn(t, k, value, now);
            |r.rows| == |t.rows| && r.next == t.next &&
            forall j :: 0 <= j < |t.rows| ==>
              r.rows[j] == if j == i then t.rows[i].(value := value, updatedAt := now) else t.rows[j]
  {
    var r := SetSettingIn(t, k, value, now);
    var s := t.rows[i];
    assert Find(t.rows, SettingHasKey(k)) == Some(s);
    var s' := SettingChanges(value, now)(s);
    // The update rewrites exactly the row under s.id, which is row i.
    GetRow(t.rows, SettingKey, i);
    assert |r.rows| == |t.rows|;
    forall j | 0 <= j < |r.rows| ensures r.rows[j] == if j == i then s' else t.rows[j] {
      GetRow(r.rows, SettingKey, j);
      GetRow(t.rows, SettingKey, j);
      UpdateKeepsKeys(t, SettingKey, s.id, SettingChanges(value, now), j);
    }
  }

  /** The key is new: a row holding it is appended. */
  lemma SetNewThenGet(t: Table<Setting>, k: string, value: string, now: int)
    requires WellFormed(t, SettingKey)
    requires FindIndex(t.rows, SettingHasKey(k)) == None
    ensures SettingValue(SetSettingIn(t, k, value, now), k) == Some(value)
    ensures SetSettingIn(t, k, value, now).rows == t.rows + [Setting(t.next, k, value, now)]
  {
    var r := SetSettingIn(t, k, value, now);
    var p := SettingHasKey(k);
    var x := Setting(t.next, k, value, now);
    AppendGenerated(t, SettingKey, x);
    assert r.rows == t.rows + [x];
    assert r.rows[|t.rows|] == x;
    assert forall j :: 0 <= j < |t.rows| ==> r.rows[j] == t.rows[j];
    assert FindIndex(r.rows, p) == Some(|t.rows|);
  }

  /** `setSetting` is an upsert: an existing key's first row is rewritten
      in place, with no second row for the key; a new key gets one row
      appended under the generated id; and every other key reads as
      before. */
  lemma SetSettingFrame(t: Table<Setting>, k: string, value: string, now: int)
    requires WellFormed(t, SettingKey)
    ensures var r := SetSettingIn(t, k, value, now);
            var found := FindIndex(t.rows, SettingHasKey(k));
            found.Some? ==>
              |r.rows| == |t.rows| && r.next == t.next &&
              r.rows[found.value] == t.rows[found.value].(value := value, updatedAt := now) &&
              forall j :: 0 <= j < |t.rows| && j != found.value ==> r.rows[j] == t.rows[j]
    ensures FindIndex(t.rows, SettingHasKey(k)).None? ==>
              SetSettingIn(t, k, value, now).rows == t.rows + [Setting(t.next, k, value, now)]
    ensures forall k' :: k' != k ==> SettingValue(SetSettingIn(t, k, value, now), k') == SettingValue(t, k')
  {
    var r := SetSettingIn(t, k, value, now);
    forall k' | k' != k
      ensures SettingValue(r, k') == SettingValue(t, k')
    {
      OtherKeyUnchanged(t, k, value, now, k');
    }
    match FindIndex(t.rows, SettingHasKey(k))
    case Some(i) => SetExistingThenGet(t, k, value, now, i);
    case None => SetNewThenGet(t, k, value, now);
  }

  /** Setting key k leaves the value read for any other key as it was. */
  lemma OtherKeyUnchanged(t: Table<Setting>, k: string, value: string, now: int, k': string)
    requires WellFormed(t, SettingKey) && k' != k
    ensures SettingValue(SetSettingIn(t, k, value, now), k') == SettingValue(t, k')
  {
    var found := FindIndex(t.rows, SettingHasKey(k));
    if found.Some? {
      OtherKeyAfterUpdate(t, k, value, now, k', found.value);
    } else {
      OtherKeyAfterAppend(t, k, value, now, k');
    }
  }

  lemma OtherKeyAfterUpdate(t: Table<Setting>, k: string, value: string, now: int, k': string, i: nat)
    requires WellFormed(t, SettingKey) && k' != k
    requires FindIndex(t.rows, SettingHasKey(k)) == Some(i)
    ensures SettingValue(SetSettingIn(t, k, value, now), k') == SettingValue(t, k')
  {
    var r := SetSettingIn(t, k, value, now);
    var p := SettingHasKey(k');
    SetExistingThenGet(t, k, value, now, i);
    assert t.rows[i].key == k;
    forall j | 0 <= j < |t.rows| ensures p(r.rows[j]) == p(t.rows[j]) {
    }
    FindIndexAlike(r.rows, t.rows, p);
    var m := FindIndex(t.rows, p);
    if m.Some? {
      assert m.value != i;
    }
  }

  lemma OtherKeyAfterAppend(t: Table<Setting>, k: string, value: string, now: int, k': string)
    requires WellFormed(t, SettingKey) && k' != k
    requires FindIndex(t.rows, SettingHasKey(k)) == None
    ensures SettingValue(SetSettingIn(t, k, value, now), k') == SettingValue(t, k')
  {
    var r := SetSettingIn(t, k, value, now);
    var p := SettingHasKey(k');
    var x := Setting(t.next, k, value, now);
    SetNewThenGet(t, k, value, now);
    FindIndexAppendMiss(t.rows, x, p);
    var m := FindIndex(t.rows, p);
    if m.Some? {
      assert r.rows[m.value] == t.rows[m.value];
    }
  }

  /** An update keeps every row's position and key. */
  lemma UpdateKeepsKeys<T(!new)>(t: Table<T>, key: T -> int, k: int, patch: T -> T, j: int)
    requires WellFormed(t, key)
    requires forall x :: key(patch(x)) == key(x)
    requires 0 <= j < |t.rows|
    ensures key(Update(t, key, k, patch).rows[j]) == key(t.rows[j])
  {
  }

  /** A record under a generated key lands after every stored row. */
  lemma AppendGenerated<T>(t: Table<T>, key: T -> int, x: T)
    requires WellFormed(t, key) && key(x) == t.next
    ensures Add(t, key, x).Some? && Add(t, key, x).value.rows == t.rows + [x]
  {
    AddGenerated(t, key, x);
    PosPastAll(t.rows, key, key(x));
  }

  /** `exportData()`: every store's rows in primary-key order, so a backup
      of a well-formed database lists each collection by ascending id, with
      no id twice. */
  function Export(st: DbState): (s: Snapshot)
    ensures s.deceased == st.deceased.rows && s.contributors == st.contributors.rows
    ensures s.contributions == st.contributions.rows && s.expenses == st.expenses.rows
    ensures s.users == st.users.rows && s.settings == st.settings.rows
    ensures Consistent(st) ==>
              Ordered(s.deceased, DeceasedKey) && Ordered(s.contributors, ContributorKey) &&
              Ordered(s.contributions, ContributionKey) && Ordered(s.expenses, ExpenseKey) &&
              Ordered(s.users, UserKey) && Ordered(s.settings, SettingKey)
  {
    Snapshot(st.deceased.rows, st.contributors.rows, st.contributions.rows,
             st.expenses.rows, st.users.rows, st.settings.rows)
  }

  /** `importData(data)`: one transaction that clears every store and
      bulk-adds the backup; any failing bulk add aborts it and nothing
      changes. */
  function Import(st: DbState, s: Snapshot): (r: Option<DbState>)
    requires Consistent(st)
    ensures r.Some? ==> Consistent(r.value)
    ensures r.Some? ==> multiset(r.value.deceased.rows) == multiset(s.deceased)
    ensures r.Some? ==> multiset(r.value.contributors.rows) == multiset(s.contributors)
    ensures r.Some? ==> multiset(r.value.contributions.rows) == multiset(s.contributions)
    ensures r.Some? ==> multiset(r.value.expenses.rows) == multiset(s.expenses)
    ensures r.Some? ==> multiset(r.value.users.rows) == multiset(s.users)
    ensures r.Some? ==> multiset(r.value.settings.rows) == multiset(s.settings)
  {
    var d := BulkAddTo(Clear(st.deceased), DeceasedKey, s.deceased);
    var c := BulkAddTo(Clear(st.contributors), ContributorKey, s.contributors);
    var cn := BulkAddTo(Clear(st.contributions), ContributionKey, s.contributions);
    var e := BulkAddTo(Clear(st.expenses), ExpenseKey, s.expenses);
    var u := BulkAddTo(Clear(st.users), UserKey, s.users);
    var st' := BulkAddTo(Clear(st.settings), SettingKey, s.settings);
    if d.Some? && c.Some? && cn.Some? && e.Some? && u.Some? && st'.Some? then
      Some(DbState(d.value, c.value, cn.value, e.value, u.value, st'.value))
    else None
  }

  /** Restoring a backup the database has just exported brings back the
      very same state, key generators included. */
  lemma ExportImportRoundTrip(st: DbState)
    requires Consistent(st)
    ensures Import(st, Export(st)) == Some(st)
  {
    ClearReload(st.deceased, DeceasedKey);
    ClearReload(st.contributors, ContributorKey);
    ClearReload(st.contributions, ContributionKey);
    ClearReload(st.expenses, ExpenseKey);
    ClearReload(st.users, UserKey);
    ClearReload(st.settings, SettingKey);
  }

  /** A backup in which two deceased records share an id is refused as a
      whole. */
  lemma ImportRefusesDuplicateDeceased(st: DbState, s: Snapshot, i: int, j: int)
    requires Consistent(st)
    requires 0 <= i < j < |s.deceased| && s.deceased[i].id == s.deceased[j].id
    ensures Import(st, s).None?
  {
    BulkAddDuplicate([], DeceasedKey, st.deceased.next, s.deceased, i, j);
  }

  /** A backup in which two users share an id is refused as a whole. */
  lemma ImportRefusesDuplicateUser(st: DbState, s: Snapshot, i: int, j: int)
    requires Consistent(st)
    requires 0 <= i < j < |s.users| && s.users[i].id == s.users[j].id
    ensures Import(st, s).None?
  {
    BulkAddDuplicate([], UserKey, st.users.next, s.users, i, j);
  }

  /** `clearAllData()`: every store emptied, key generators kept. */
  function ClearAll(st: DbState): (r: DbState)
    ensures r.deceased.rows == [] && r.contributors.rows == [] && r.contributions.rows == []
    ensures r.expenses.rows == [] && r.users.rows == [] && r.settings.rows == []
    ensures r.deceased.next == st.deceased.next && r.users.next == st.users.next
    ensures r.contributors.next == st.contributors.next && r.contributions.next == st.contributions.next
    ensures r.expenses.next == st.expenses.next && r.settings.next == st.settings.next
  {
    DbState(Clear(st.deceased), Clear(st.contributors), Clear(st.contributions),
            Clear(st.expenses), Clear(st.users), Clear(st.settings))
  }

  /** Keys are never reused: after clearing, the next generated key is
      above every key the store ever held. */
  lemma ClearDoesNotReuseKeys(st: DbState, i: int)
    requires Consistent(st) && 0 <= i < |st.deceased.rows|
    ensures ClearAll(st).deceased.next > st.deceased.rows[i].id
  {
  }

  /** `getAllDeceased()`: newest `createdAt` first. */
  function AllDeceased(t: Table<Deceased>): seq<Deceased> {
    SortDesc(Reverse(t.rows), DeceasedCreatedAt)
  }

  /** `getAllContributions()`: latest `date` first. */
  function AllContributions(t: Table<Contribution>): seq<Contribution> {
    SortDesc(Reverse(t.rows), ContributionDate)
  }

  /** `getAllExpenses()`: latest `date` first. */
  function AllExpenses(t: Table<Expense>): seq<Expense> {
    SortDesc(Reverse(t.rows), ExpenseDate)
  }

  /** Newest first, every stored record exactly once. */
  lemma NewestFirst<T>(rows: seq<T>, key: T -> int)
    ensures multiset(SortDesc(Reverse(rows), key)) == multiset(rows)
    ensures SortedDesc(SortDesc(Reverse(rows), key), key)
  {
    ReverseSpec(rows);
    SortDescSpec(Reverse(rows), key);
  }

  lemma AllDeceasedSpec(t: Table<Deceased>)
    ensures multiset(AllDeceased(t)) == multiset(t.rows)
    ensures SortedDesc(AllDeceased(t), DeceasedCreatedAt)
  {
    NewestFirst(t.rows, DeceasedCreatedAt);
  }

  lemma AllContributionsSpec(t: Table<Contribution>)
    ensures multiset(AllContributions(t)) == multiset(t.rows)
    ensures SortedDesc(AllContributions(t), ContributionDate)
  {
    NewestFirst(t.rows, ContributionDate);
  }

  lemma AllExpensesSpec(t: Table<Expense>)
    ensures multiset(AllExpenses(t)) == multiset(t.rows)
    ensures SortedDesc(AllExpenses(t), ExpenseDate)
  {
    NewestFirst(t.rows, ExpenseDate);
  }


  class Database {
    var deceased: Table<Deceased>
    var contributors: Table<Contributor>
    var contributions: Table<Contribution>
    var expenses: Table<Expense>
    var users: Table<User>
    var settings: Table<Setting>

    function State(): DbState
      reads this
    {
      DbState(deceased, contributors, contributions, expenses, users, settings)
    }

    ghost predicate Valid()
      reads this
    {
      Consistent(State())
    }

    /** A fresh database: every store empty, every key generator at 1. */
    constructor()
      ensures Valid()
      ensures deceased == Empty() && contributors == Empty() && contributions == Empty()
      ensures expenses == Empty() && users == Empty() && settings == Empty()
    {
      deceased := Empty();
      contributors := Empty();
      contributions := Empty();
      expenses := Empty();
      users := Empty();
      settings := Empty();
    }

    /** `addDeceased`: stored as unsynced with both timestamps now; under the
        record's own id when it carries one (as server records do). */
    method AddDeceased(d: Deceased, explicit: Option<int>, now: int) returns (r: AddOutcome)
      requires Valid()
      modifies this`deceased
      ensures Valid()
      ensures (deceased, r) == AddTo(old(deceased), DeceasedKey, NewDeceased(d, KeyFor(old(deceased), explicit), now))
    {
      var res := AddTo(deceased, DeceasedKey, NewDeceased(d, KeyFor(deceased, explicit), now));
      deceased := res.0;
      r := res.1;
    }

    method AddContributor(c: Contributor, explicit: Option<int>, now: int) returns (r: AddOutcome)
      requires Valid()
      modifies this`contributors
      ensures Valid()
      ensures (contributors, r) ==
              AddTo(old(contributors), ContributorKey, NewContributor(c, KeyFor(old(contributors), explicit), now))
    {
      var res := AddTo(contributors, ContributorKey, NewContributor(c, KeyFor(contributors, explicit), now));
      contributors := res.0;
      r := res.1;
    }

    method AddContribution(c: Contribution, explicit: Option<int>, now: int) returns (r: AddOutcome)
      requires Valid()
      modifies this`contributions
      ensures Valid()
      ensures (contributions, r) ==
              AddTo(old(contributions), ContributionKey, NewContribution(c, KeyFor(old(contributions), explicit), now))
    {
      var res := AddTo(contributions, ContributionKey, NewContribution(c, KeyFor(contributions, explicit), now));
      contributions := res.0;
      r := res.1;
    }

    method AddExpense(e: Expense, explicit: Option<int>, now: int) returns (r: AddOutcome)
      requires Valid()
      modifies this`expenses
      ensures Valid()
      ensures (expenses, r) == AddTo(old(expenses), ExpenseKey, NewExpense(e, KeyFor(old(expenses), explicit), now))
    {
      var res := AddTo(expenses, ExpenseKey, NewExpense(e, KeyFor(expenses, explicit), now));
      expenses := res.0;
      r := res.1;
    }

    /** `addUser`: always under a generated key, so it cannot fail. */
    method AddUser(u: User, now: int) returns (id: int)
      requires Valid()
      modifies this`users
      ensures Valid()
      ensures id == old(users).next && users.next == id + 1
      ensures users.rows == old(users).rows + [NewUser(u, id, now)]
    {
      id := users.next;
      AppendGenerated(users, UserKey, NewUser(u, id, now));
      users := Add(users, UserKey, NewUser(u, id, now)).value;
    }

    method UpdateDeceased(id: int, p: DeceasedPatch, now: int)
      requires Valid()
      modifies this`deceased
      ensures Valid()
      ensures deceased == Update(old(deceased), DeceasedKey, id, DeceasedChanges(p, now))
    {
      deceased := Update(deceased, DeceasedKey, id, DeceasedChanges(p, now));
    }

    method UpdateContributor(id: int, p: ContributorPatch, now: int)
      requires Valid()
      modifies this`contributors
      ensures Valid()
      ensures contributors == Update(old(contributors), ContributorKey, id, ContributorChanges(p, now))
    {
      contributors := Update(contributors, ContributorKey, id, ContributorChanges(p, now));
    }

    method UpdateUser(id: int, p: UserPatch, now: int)
      requires Valid()
      modifies this`users
      ensures Valid()
      ensures users == Update(old(users), UserKey, id, UserChanges(p, now))
    {
      users := Update(users, UserKey, id, UserChanges(p, now));
    }

    method DeleteDeceased(id: int)
      requires Valid()
      modifies this`deceased
      ensures Valid()
      ensures deceased == Delete(old(deceased), DeceasedKey, id)
    {
      deceased := Delete(deceased, DeceasedKey, id);
    }

    method MarkDeceasedAsSynced(id: int)
      requires Valid()
      modifies this`deceased
      ensures Valid()
      ensures deceased == Update(old(deceased), DeceasedKey, id, DeceasedSynced)
    {
      deceased := Update(deceased, DeceasedKey, id, DeceasedSynced);
    }

    method MarkContributorAsSynced(id: int)
      requires Valid()
      modifies this`contributors
      ensures Valid()
      ensures contributors == Update(old(contributors), ContributorKey, id, ContributorSynced)
    {
      contributors := Update(contributors, ContributorKey, id, ContributorSynced);
    }

    method MarkContributionAsSynced(id: int)
      requires Valid()
      modifies this`contributions
      ensures Valid()
      ensures contributions == Update(old(contributions), ContributionKey, id, ContributionSynced)
    {
      contributions := Update(contributions, ContributionKey, id, ContributionSynced);
    }

    method MarkExpenseAsSynced(id: int)
      requires Valid()
      modifies this`expenses
      ensures Valid()
      ensures expenses == Update(old(expenses), ExpenseKey, id, ExpenseSynced)
    {
      expenses := Update(expenses, ExpenseKey, id, ExpenseSynced);
    }

    method SetSetting(k: string, value: string, now: int)
      requires Valid()
      modifies this`settings
      ensures Valid()
      ensures settings == SetSettingIn(old(settings), k, value, now)
    {
      settings := SetSettingIn(settings, k, value, now);
    }

    /** `importData(data)`: true when the transaction commits. */
    method ImportData(s: Snapshot) returns (ok: bool)
      requires Valid()
      modifies this
      ensures Valid()
      ensures ok == Import(old(State()), s).Some?
      ensures State() == if ok then Import(old(State()), s).value else old(State())
    {
      var r := Import(State(), s);
      ok := r.Some?;
      if ok {
        Load(r.value);
      }
    }

    method ClearAllData()
      requires Valid()
      modifies this
      ensures Valid()
      ensures State() == ClearAll(old(State()))
    {
      Load(ClearAll(State()));
    }

    /** Writes a whole state back into the six stores. */
    method Load(st: DbState)
      requires Consistent(st)
      modifies this
      ensures Valid() && State() == st
    {
      deceased, contributors, contributions := st.deceased, st.contributors, st.contributions;
      expenses, users, settings := st.expenses, st.users, st.settings;
    }

    /** `getAllContributors()`: ascending id. */
    function AllContributors(): (r: seq<Contributor>)
      requires Valid()
      reads this
      ensures forall i, j :: 0 <= i < j < |r| ==> r[i].id < r[j].id
      ensures forall c :: c in r <==> c in contributors.rows
    {
      contributors.rows
    }

    /** `getContributorsByReligion(religion)`. */
    function ContributorsByReligion(religion: Religion): (r: seq<Contributor>)
      reads this
      ensures forall c :: c in r <==> c in contributors.rows && c.religion == religion
      ensures IsSubsequence(r, contributors.rows)
    {
      var keep := (c: Contributor) => c.religion == religion;
      FilterMembers(contributors.rows, keep);
      FilterIsSubsequence(contributors.rows, keep);
      Filter(contributors.rows, keep)
    }

    /** `getContributionsByDeceased(deceasedId)`. */
    function ContributionsByDeceased(deceasedId: int): (r: seq<Contribution>)
      reads this
      ensures forall c :: c in r <==> c in contributions.rows && c.deceasedId == deceasedId
      ensures IsSubsequence(r, contributions.rows)
    {
      var keep := (c: Contribution) => c.deceasedId == deceasedId;
      FilterMembers(contributions.rows, keep);
      FilterIsSubsequence(contributions.rows, keep);
      Filter(contributions.rows, keep)
    }

    /** `getContributionsByContributor(contributorId)`. */
    function ContributionsByContributor(contributorId: int): (r: seq<Contribution>)
      reads this
      ensures forall c :: c in r <==> c in contributions.rows && c.contributorId == contributorId
      ensures IsSubsequence(r, contributions.rows)
    {
      var keep := (c: Contribution) => c.contributorId == contributorId;
      FilterMembers(contributions.rows, keep);
      FilterIsSubsequence(contributions.rows, keep);
      Filter(contributions.rows, keep)
    }

    /** `getExpensesByDeceased(deceasedId)`. */
    function ExpensesByDeceased(deceasedId: int): (r: seq<Expense>)
      reads this
      ensures forall e :: e in r <==> e in expenses.rows && e.deceasedId == deceasedId
      ensures IsSubsequence(r, expenses.rows)
    {
      var keep := (e: Expense) => e.deceasedId == deceasedId;
      FilterMembers(expenses.rows, keep);
      FilterIsSubsequence(expenses.rows, keep);
      Filter(expenses.rows, keep)
    }

    /** `getUserByEmail(email)`: exact, case-sensitive match; the lowest id
        wins, since the rows are in key order. */
    function UserByEmail(email: string): (r: Option<User>)
      reads this
      ensures r.Some? ==> r.value in users.rows && r.value.email == email
      ensures r.None? <==> forall i :: 0 <= i < |users.rows| ==> users.rows[i].email != email
      ensures r.Some? ==> exists i :: 0 <= i < |users.rows| && users.rows[i] == r.value &&
                                    forall j :: 0 <= j < i ==> users.rows[j].email != email
    {
      var p := (u: User) => u.email == email;
      match FindIndex(users.rows, p)
      case Some(i) =>
        assert p(users.rows[i]);
        Some(users.rows[i])
      case None => None
    }

    /** `getSetting(key)`: the value of the first setting with that key. */
    function GetSetting(k: string): (r: Option<string>)
      reads this
      ensures r.None? <==> forall i :: 0 <= i < |settings.rows| ==> settings.rows[i].key != k
      ensures r.Some? ==> exists i :: 0 <= i < |settings.rows| && settings.rows[i].key == k &&
                                    r.value == settings.rows[i].value &&
                                    forall j :: 0 <= j < i ==> settings.rows[j].key != k
    {
      SettingValue(settings, k)
    }
  }
}
